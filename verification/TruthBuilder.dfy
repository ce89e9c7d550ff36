/** The private truth of a corpus, from authored pairs and projected views
    (src/witnessgap/workspace100/truth.py:345-415). */
module TruthBuilder {
  import opened Model
  import opened Order
  import opened Permutations
  import opened Views
  import opened Materials
  import opened Projection
  import opened Projector
  import opened Routes
  import opened Truth
  import opened RouteCases
  import opened TruthSet
  import opened Authoring
  import opened Corpora
  import Verifier

  datatype PipelineError =
    | VerificationFailed(verification: Verifier.VerificationError)
    | ProjectionFailed(projection: ProjectionError)
    | PrivateText
    | PairsDiffer
    | AuthoringFailed(authoring: AuthoringError)

  // ---------- lookups ----------

  function PairIdOf(protocol: Protocol): WorldPair -> string {
    (p: WorldPair) => protocol.ids.pairId((p.left.commitment, p.right.commitment))
  }

  function RouteId(r: PairRoute): string {
    r.pairId
  }

  /** A lookup in a dictionary built from a list, by a key that the list does not repeat. */
  function FindBy<T>(s: seq<T>, key: T -> string, id: string): (x: Option<T>)
    ensures x.Some? ==> x.value in s && key(x.value) == id
    ensures x.None? ==> forall y :: y in s ==> key(y) != id
  {
    if s == [] then None
    else if key(s[0]) == id then Some(s[0])
    else FindBy(s[1..], key, id)
  }

  ghost predicate KeysDiffer<T>(s: seq<T>, key: T -> string) {
    forall x, y :: x in s && y in s && key(x) == key(y) ==> x == y
  }

  lemma FoundBy<T>(s: seq<T>, key: T -> string, x: T)
    requires x in s && KeysDiffer(s, key)
    ensures FindBy(s, key, key(x)) == Some(x)
  {
  }

  /** The route of a material is among those of the views. */
  ghost function Routed(protocol: Protocol, routes: seq<PairRoute>): (WorldPair, PairMaterial) -> bool {
    (p: WorldPair, m: PairMaterial) => m == MaterialFor(p.left, p.right, protocol) && RouteFor(protocol)(m) in routes
  }

  /** Element by element, `p` holds of the two lists. */
  ghost predicate Matched<S, T>(a: seq<S>, b: seq<T>, p: (S, T) -> bool) {
    |a| == |b| && forall i :: 0 <= i < |a| ==> p(a[i], b[i])
  }

  lemma RouteIsFound(protocol: Protocol, p: WorldPair, routes: seq<PairRoute>, m: PairMaterial)
    requires Routed(protocol, routes)(p, m) && KeysDiffer(routes, RouteId)
    ensures FindBy(routes, RouteId, PairIdOf(protocol)(p)) == Some(RouteFor(protocol)(m))
    ensures AuthorRoute(protocol, p.left, p.right, RouteFor(protocol)(m)) == Some(RouteFor(protocol)(m))
  {
    MaterialNames(p.left, p.right, protocol, m);
    RouteNames(protocol, m);
    FoundBy(routes, RouteId, RouteFor(protocol)(m));
    RouteIsAuthored(protocol, p.left, p.right, m);
  }

  method AuthorOneRoute(protocol: Protocol, p: WorldPair, routes: seq<PairRoute>, ghost m: PairMaterial)
    returns (r: Result<PairRoute, PipelineError>)
    requires Routed(protocol, routes)(p, m) && KeysDiffer(routes, RouteId)
    ensures r == Ok(RouteFor(protocol)(m))
  {
    RouteIsFound(protocol, p, routes, m);
    var found := FindBy(routes, RouteId, PairIdOf(protocol)(p));
    match found {
      case None => return Err(PairsDiffer);
      case Some(route) =>
        var authored := AuthorRoute(protocol, p.left, p.right, route);
        match authored {
          case None => return Err(AuthoringFailed(RouteRefused));
          case Some(checked) => r := Ok(checked);
        }
    }
  }

  /** The route loop of `build_workspace100_truth`: one route per authored pair. */
  method AuthorRoutes(protocol: Protocol, pairs: seq<WorldPair>, routes: seq<PairRoute>, ghost ms: seq<PairMaterial>)
    returns (r: Result<seq<PairRoute>, PipelineError>)
    requires Matched(pairs, ms, Routed(protocol, routes)) && KeysDiffer(routes, RouteId)
    ensures r == Ok(Apply(ms, RouteFor(protocol)))
  {
    var authored: seq<PairRoute> := [];
    ghost var expected := Apply(ms, RouteFor(protocol));
    for i := 0 to |pairs|
      invariant authored == expected[..i]
    {
      var route := AuthorOneRoute(protocol, pairs[i], routes, ms[i]);
      match route {
        case Err(error) => return Err(error);
        case Ok(found) =>
          PrefixGrows(authored, expected, i, found);
          authored := authored + [found];
      }
    }
    assert expected[..|pairs|] == expected;
    r := Ok(authored);
  }

  /** The worlds behind a material are among the authored pairs. */
  ghost predicate AuthoredBy(protocol: Protocol, pairs: seq<WorldPair>, m: PairMaterial, p: WorldPair) {
    p in pairs && Authored(protocol, p.left, p.right, m)
  }

  ghost predicate HasAuthor(protocol: Protocol, pairs: seq<WorldPair>, m: PairMaterial) {
    exists p :: AuthoredBy(protocol, pairs, m, p)
  }

  /** The authored pair of a material is found by its id. */
  ghost function Findable(protocol: Protocol, pairs: seq<WorldPair>): PairMaterial -> bool {
    (m: PairMaterial) => HasAuthor(protocol, pairs, m) && KeysDiffer(pairs, PairIdOf(protocol))
  }

  lemma PairIsFound(protocol: Protocol, pairs: seq<WorldPair>, m: PairMaterial)
    requires HasAuthor(protocol, pairs, m) && KeysDiffer(pairs, PairIdOf(protocol))
    ensures var found := FindBy(pairs, PairIdOf(protocol), RouteFor(protocol)(m).pairId);
      found.Some? && AuthoredBy(protocol, pairs, m, found.value)
  {
    var p :| AuthoredBy(protocol, pairs, m, p);
    assert AuthoredSide(protocol, p.left, p.right, m, true);
    MaterialNames(p.left, p.right, protocol, m);
    RouteNames(protocol, m);
    FoundBy(pairs, PairIdOf(protocol), p);
  }

  method AuthorOnePair(
      protocol: Protocol, pairs: seq<WorldPair>, route: PairRoute, views: EvidenceViews,
      ghost ordered: seq<PairMaterial>, ghost i: nat)
    returns (r: Result<seq<TruthCase>, PipelineError>)
    requires Projected(protocol)(ordered, views) && i < |ordered| && route == RouteFor(protocol)(ordered[i])
    requires Findable(protocol, pairs)(ordered[i])
    ensures r == Ok(RouteTruths(protocol)(ordered[i]))
  {
    PairIsFound(protocol, pairs, ordered[i]);
    var found := FindBy(pairs, PairIdOf(protocol), route.pairId);
    match found {
      case None => return Err(PairsDiffer);
      case Some(p) =>
        var truths := AuthorPair(protocol, p.left, p.right, route, views, ordered, i);
        match truths {
          case Err(error) => return Err(AuthoringFailed(error));
          case Ok(cases) => r := Ok(cases);
        }
    }
  }

  /** The views of the ordered materials, and an author for each of them. */
  ghost function AuthorsKnown(protocol: Protocol, pairs: seq<WorldPair>): (seq<PairMaterial>, EvidenceViews) -> bool {
    (ordered: seq<PairMaterial>, views: EvidenceViews) =>
      Projected(protocol)(ordered, views) && AllMeet(Findable(protocol, pairs), ordered)
  }

  /** One turn of the loop below. */
  method AuthorNext(
      protocol: Protocol, pairs: seq<WorldPair>, routes: seq<PairRoute>, views: EvidenceViews,
      ghost ordered: seq<PairMaterial>, i: nat, cases: seq<TruthCase>)
    returns (r: Result<seq<TruthCase>, PipelineError>)
    requires AuthorsKnown(protocol, pairs)(ordered, views) && routes == Apply(ordered, RouteFor(protocol))
    requires i < |routes| && cases == Flat(ordered[..i], RouteTruths(protocol))
    ensures r == Ok(Flat(ordered[..i + 1], RouteTruths(protocol)))
  {
    FlatNext(ordered, RouteTruths(protocol), i);
    var six := AuthorOnePair(protocol, pairs, routes[i], views, ordered, i);
    match six {
      case Err(error) => return Err(error);
      case Ok(truths) => r := Ok(cases + truths);
    }
  }

  /** The case loop of `build_workspace100_truth`, over the ordered routes. */
  method AuthorCasesOf(
      protocol: Protocol, pairs: seq<WorldPair>, routes: seq<PairRoute>, views: EvidenceViews,
      ghost ordered: seq<PairMaterial>)
    returns (r: Result<seq<TruthCase>, PipelineError>)
    requires AuthorsKnown(protocol, pairs)(ordered, views) && routes == Apply(ordered, RouteFor(protocol))
    ensures r == Ok(Flat(ordered, RouteTruths(protocol)))
  {
    r := Ok([]);
    var i := 0;
    while i < |routes| && r.Ok?
      invariant 0 <= i <= |routes| && r == Ok(Flat(ordered[..i], RouteTruths(protocol)))
    {
      r := AuthorNext(protocol, pairs, routes, views, ordered, i, r.value);
      i := i + 1;
    }
    assert ordered[..|routes|] == ordered;
  }

  lemma FlatNext<S, T>(s: seq<S>, part: S -> seq<T>, i: nat)
    requires i < |s|
    ensures Flat(s[..i + 1], part) == Flat(s[..i], part) + part(s[i])
  {
    assert s[..i + 1] == s[..i] + [s[i]];
    FlatMore(s[..i], s[i], part);
  }

  // ---------- what a corpus provides ----------

  function MaterialId(m: PairMaterial): string {
    m.pairId
  }

  ghost predicate IdsDiffer(ms: seq<PairMaterial>) {
    forall i, j :: 0 <= i < |ms| && 0 <= j < |ms| && i != j ==> MaterialId(ms[i]) != MaterialId(ms[j])
  }

  lemma KeysByMaterial<T>(s: seq<T>, key: T -> string, ms: seq<PairMaterial>)
    requires |ms| == |s| && IdsDiffer(ms) && forall i :: 0 <= i < |s| ==> key(s[i]) == MaterialId(ms[i])
    ensures KeysDiffer(s, key)
  {
    forall x, y | x in s && y in s && key(x) == key(y) ensures x == y {
      var a :| 0 <= a < |s| && s[a] == x;
      var b :| 0 <= b < |s| && s[b] == y;
      assert a == b;
    }
  }

  lemma RegularIdsDiffer(ms: seq<PairMaterial>)
    requires Regular(ms)
    ensures IdsDiffer(ms)
  {
    forall i, j | 0 <= i < |ms| && 0 <= j < |ms| && i != j ensures MaterialId(ms[i]) != MaterialId(ms[j]) {
      assert Apart(ms[i], ms[j]);
    }
  }

  lemma UniqueIdsDiffer(ms: seq<PairMaterial>)
    requires UniqueIdentities(ms)
    ensures IdsDiffer(ms)
  {
    forall i, j | 0 <= i < |ms| && 0 <= j < |ms| && i != j ensures MaterialId(ms[i]) != MaterialId(ms[j]) {
      assert Separate(ms[i], ms[j]);
    }
  }

  lemma RouteKeepsId(protocol: Protocol, m: PairMaterial)
    ensures RouteId(RouteFor(protocol)(m)) == MaterialId(m)
  {
  }

  lemma PairKeepsId(protocol: Protocol, p: WorldPair)
    ensures PairIdOf(protocol)(p) == MaterialId(MaterialOf(protocol)(p))
  {
    MaterialNames(p.left, p.right, protocol, MaterialOf(protocol)(p));
  }

  lemma RouteIdsDiffer(protocol: Protocol, ms: seq<PairMaterial>)
    requires Regular(ms)
    ensures KeysDiffer(Apply(ms, RouteFor(protocol)), RouteId)
  {
    RegularIdsDiffer(ms);
    forall i | 0 <= i < |ms| ensures RouteId(RouteFor(protocol)(ms[i])) == MaterialId(ms[i]) {
      RouteKeepsId(protocol, ms[i]);
    }
    KeysByMaterial(Apply(ms, RouteFor(protocol)), RouteId, ms);
  }

  lemma PairIdsDiffer(protocol: Protocol, pairs: seq<WorldPair>)
    requires UniqueIdentities(Apply(pairs, MaterialOf(protocol)))
    ensures KeysDiffer(pairs, PairIdOf(protocol))
  {
    var ms := Apply(pairs, MaterialOf(protocol));
    UniqueIdsDiffer(ms);
    forall i | 0 <= i < |pairs| ensures PairIdOf(protocol)(pairs[i]) == MaterialId(ms[i]) {
      PairKeepsId(protocol, pairs[i]);
    }
    KeysByMaterial(pairs, PairIdOf(protocol), ms);
  }

  lemma CorpusIsRouted(protocol: Protocol, pairs: seq<WorldPair>, ms: seq<PairMaterial>, ordered: seq<PairMaterial>)
    requires ms == Apply(pairs, MaterialOf(protocol)) && multiset(ordered) == multiset(ms)
    ensures Matched(pairs, ms, Routed(protocol, Apply(ordered, RouteFor(protocol))))
  {
    var f := RouteFor(protocol);
    var routes := Apply(ordered, f);
    SameMultiset(ordered, ms);
    forall i | 0 <= i < |pairs| ensures Routed(protocol, routes)(pairs[i], ms[i]) {
      assert ms[i] in Elements(ordered);
      var k :| 0 <= k < |ordered| && ordered[k] == ms[i];
      assert routes[k] == f(ms[i]);
    }
  }

  /** Sorting the authored routes gives the routes of the projection. */
  lemma RoutesSort(protocol: Protocol, ms: seq<PairMaterial>)
    requires Regular(Sort(ByKey(MaterialKey), ms))
    ensures Sort(ByKey(RouteKey), Apply(ms, RouteFor(protocol)))
      == Apply(Sort(ByKey(MaterialKey), ms), RouteFor(protocol))
  {
    var ordered := Sort(ByKey(MaterialKey), ms);
    var routes := Apply(ordered, RouteFor(protocol));
    TasksMatchManifests(ms);
    RoutesAreOrdered(protocol, ms);
    ApplyPermutation(ordered, ms, RouteFor(protocol));
    RouteIdsDiffer(protocol, ordered);
    ByKeyIsOrdered(RouteKey);
    RouteKeysSeparate(routes);
    SortOfPermutation(ByKey(RouteKey), routes, Apply(ms, RouteFor(protocol)));
  }

  lemma RouteKeysSeparate(routes: seq<PairRoute>)
    requires KeysDiffer(routes, RouteId)
    ensures Separates(ByKey(RouteKey), routes)
  {
    var le := ByKey(RouteKey);
    forall i, j | 0 <= i < |routes| && 0 <= j < |routes| && le(routes[i], routes[j]) && le(routes[j], routes[i])
      ensures routes[i] == routes[j]
    {
      SameKey(RouteKey(routes[i]), RouteKey(routes[j]));
      assert RouteKey(routes[i]).names[1] == RouteId(routes[i]) && RouteKey(routes[j]).names[1] == RouteId(routes[j]);
    }
  }

  lemma SameIds(protocol: Protocol, pairs: seq<WorldPair>, ms: seq<PairMaterial>, ordered: seq<PairMaterial>)
    requires ms == Apply(pairs, MaterialOf(protocol)) && multiset(ordered) == multiset(ms)
    ensures Elements(Apply(pairs, PairIdOf(protocol))) == Elements(Apply(Apply(ordered, RouteFor(protocol)), RouteId))
  {
    forall i | 0 <= i < |pairs| ensures PairIdOf(protocol)(pairs[i]) == MaterialId(ms[i]) {
      PairKeepsId(protocol, pairs[i]);
    }
    forall i | 0 <= i < |ordered| ensures RouteId(RouteFor(protocol)(ordered[i])) == MaterialId(ordered[i]) {
      RouteKeepsId(protocol, ordered[i]);
    }
    SameKeys(pairs, PairIdOf(protocol), ms, Apply(ordered, RouteFor(protocol)), RouteId, ordered);
  }

  lemma SameKeys<S, T>(
      s: seq<S>, key: S -> string, ms: seq<PairMaterial>, t: seq<T>, key': T -> string, ordered: seq<PairMaterial>)
    requires |s| == |ms| && (forall i :: 0 <= i < |s| ==> key(s[i]) == MaterialId(ms[i]))
    requires |t| == |ordered| && (forall i :: 0 <= i < |t| ==> key'(t[i]) == MaterialId(ordered[i]))
    requires multiset(ordered) == multiset(ms)
    ensures Elements(Apply(s, key)) == Elements(Apply(t, key'))
  {
    assert Apply(s, key) == Apply(ms, MaterialId) && Apply(t, key') == Apply(ordered, MaterialId);
    ApplyPermutation(ordered, ms, MaterialId);
    SameMultiset(Apply(ordered, MaterialId), Apply(ms, MaterialId));
  }

  lemma PairIsAuthored(protocol: Protocol, p: WorldPair, m: PairMaterial)
    requires Known(protocol)(p) && protocol.Binding() && m == MaterialOf(protocol)(p) && Unrelated(m.left, m.right)
    ensures Authored(protocol, p.left, p.right, m)
  {
    TwinsAreGood(protocol, p, m);
    MaterialNames(p.left, p.right, protocol, m);
  }

  lemma PairHasAuthor(protocol: Protocol, pairs: seq<WorldPair>, k: nat, m: PairMaterial)
    requires Corpus(protocol, pairs) && k < |pairs| && m == MaterialOf(protocol)(pairs[k])
    ensures Findable(protocol, pairs)(m)
  {
    var ms := Apply(pairs, MaterialOf(protocol));
    assert Unrelated(ms[k].left, ms[k].right);
    PairIdsDiffer(protocol, pairs);
    PairIsAuthored(protocol, pairs[k], m);
    assert AuthoredBy(protocol, pairs, m, pairs[k]);
  }

  lemma AllMeetRearranged<T>(ok: T -> bool, a: seq<T>, b: seq<T>)
    requires AllMeet(ok, a) && multiset(a) == multiset(b)
    ensures AllMeet(ok, b)
  {
    SameMultiset(a, b);
    forall i | 0 <= i < |b| ensures ok(b[i]) {
      assert b[i] in Elements(a);
    }
  }

  lemma CorpusHasAuthors(protocol: Protocol, pairs: seq<WorldPair>, ordered: seq<PairMaterial>)
    requires Corpus(protocol, pairs) && multiset(ordered) == multiset(Apply(pairs, MaterialOf(protocol)))
    ensures AllMeet(Findable(protocol, pairs), ordered)
  {
    var ms := Apply(pairs, MaterialOf(protocol));
    forall k | 0 <= k < |ms| ensures Findable(protocol, pairs)(ms[k]) {
      PairHasAuthor(protocol, pairs, k, ms[k]);
    }
    AllMeetRearranged(Findable(protocol, pairs), ms, ordered);
  }

  // ---------- the truth set ----------

  /** What truth authoring is given: the projection of the pairs' own materials. */
  ghost predicate ProjectedFrom(
    protocol: Protocol, pairs: seq<WorldPair>, views: EvidenceViews, ordered: seq<PairMaterial>)
  {
    var ms := Apply(pairs, MaterialOf(protocol));
    && Corpus(protocol, pairs) && ordered == Sort(ByKey(MaterialKey), ms)
    && Regular(ordered) && views == ViewsOf(protocol, ordered)
  }

  /** The ordered routes of `build_workspace100_truth`. */
  method AuthorSortedRoutes(
      protocol: Protocol, pairs: seq<WorldPair>, views: EvidenceViews, ghost ordered: seq<PairMaterial>)
    returns (r: Result<seq<PairRoute>, PipelineError>)
    requires ProjectedFrom(protocol, pairs, views, ordered)
    ensures r == Ok(Apply(ordered, RouteFor(protocol)))
  {
    ghost var ms := Apply(pairs, MaterialOf(protocol));
    SameIds(protocol, pairs, ms, ordered);
    if Elements(Apply(pairs, PairIdOf(protocol))) != Elements(Apply(views.routes, RouteId)) {
      return Err(PairsDiffer);
    }
    CorpusIsRouted(protocol, pairs, ms, ordered);
    RouteIdsDiffer(protocol, ordered);
    var routes := AuthorRoutes(protocol, pairs, views.routes, ms);
    match routes {
      case Err(error) => return Err(error);
      case Ok(authored) =>
        RoutesSort(protocol, ms);
        r := Ok(Sort(ByKey(RouteKey), authored));
    }
  }

  lemma ProjectedHasAuthors(protocol: Protocol, pairs: seq<WorldPair>, views: EvidenceViews, ordered: seq<PairMaterial>)
    requires ProjectedFrom(protocol, pairs, views, ordered)
    ensures AuthorsKnown(protocol, pairs)(ordered, views)
  {
    CorpusHasAuthors(protocol, pairs, ordered);
    RegularIsProjected(protocol, ordered, views);
    AuthorsAreKnown(protocol, pairs, ordered, views);
  }

  lemma RegularIsProjected(protocol: Protocol, ordered: seq<PairMaterial>, views: EvidenceViews)
    requires protocol.Binding() && Regular(ordered) && views == ViewsOf(protocol, ordered)
    ensures Projected(protocol)(ordered, views)
  {
  }

  lemma AuthorsAreKnown(protocol: Protocol, pairs: seq<WorldPair>, ordered: seq<PairMaterial>, views: EvidenceViews)
    requires Projected(protocol)(ordered, views) && AllMeet(Findable(protocol, pairs), ordered)
    ensures AuthorsKnown(protocol, pairs)(ordered, views)
  {
  }

  /** `build_workspace100_truth` */
  method BuildTruth(protocol: Protocol, pairs: seq<WorldPair>, views: EvidenceViews, ghost ordered: seq<PairMaterial>)
    returns (r: Result<TruthSet, PipelineError>)
    requires ProjectedFrom(protocol, pairs, views, ordered)
    ensures r == Ok(TruthFor(protocol, ordered))
  {
    var routes := AuthorSortedRoutes(protocol, pairs, views, ordered);
    match routes {
      case Err(error) => return Err(error);
      case Ok(sorted) =>
        ProjectedHasAuthors(protocol, pairs, views, ordered);
        var cases := AuthorCasesOf(protocol, pairs, sorted, views, ordered);
        match cases {
          case Err(error) => return Err(error);
          case Ok(authored) =>
            AuthoredOrder(protocol, ordered);
            r := Ok(TruthSet(views, sorted, Sort(ByKey(TruthKey), authored)));
        }
    }
  }
}
