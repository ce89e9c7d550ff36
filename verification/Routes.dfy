/** Why the projection of admissible materials passes every routing validator
    (src/witnessgap/workspace100/views.py:1018-1237). */
module Routes {
  import opened Model
  import opened Order
  import opened Attribution
  import opened Views
  import opened Projection
  import opened Projector
  import opened SingleCause
  import opened Routing
  import opened Permutations

  /** What the proofs need to know of the materials, and no more. */
  ghost predicate Regular(ms: seq<PairMaterial>) {
    && (forall i :: 0 <= i < |ms| ==> TwinShots(Shots(ms[i]), ms[i].manifest) && SoundSides(ms[i]))
    && (forall i, j :: 0 <= i < |ms| && 0 <= j < |ms| && i != j ==> Apart(ms[i], ms[j]))
  }

  ghost predicate SoundSides(m: PairMaterial) {
    m.left.episodeId != m.right.episodeId && m.taskId == m.manifest.taskId
  }

  ghost predicate Apart(a: PairMaterial, b: PairMaterial) {
    && a.manifest != b.manifest && a.pairId != b.pairId && a.taskId != b.taskId
    && {a.left.episodeId, a.right.episodeId} !! {b.left.episodeId, b.right.episodeId}
  }

  lemma AdmissibleIsRegular(protocol: Protocol, ms: seq<PairMaterial>)
    requires Admissible(Good(protocol), ms)
    ensures Regular(ms)
  {
    AdmittedRegistriesDiffer(protocol, ms);
    forall i | 0 <= i < |ms| ensures TwinShots(Shots(ms[i]), ms[i].manifest) && SoundSides(ms[i]) {
      MemberIsGood(Good(protocol), ms, i);
      GoodTwinsShow(protocol, ms[i]);
    }
    forall i, j | 0 <= i < |ms| && 0 <= j < |ms| && i != j ensures Apart(ms[i], ms[j]) {
      MembersAreApart(Good(protocol), ms, if i < j then i else j, if i < j then j else i);
    }
  }

  lemma MemberIsGood(ok: PairMaterial -> bool, ms: seq<PairMaterial>, i: nat)
    requires Admissible(ok, ms) && i < |ms|
    ensures ok(ms[i])
  {
    AdmissibleMeans(ok, ms);
  }

  lemma MembersAreApart(ok: PairMaterial -> bool, ms: seq<PairMaterial>, i: nat, j: nat)
    requires Admissible(ok, ms) && DistinctRegistries(ms) && i < j < |ms|
    ensures Apart(ms[i], ms[j]) && Apart(ms[j], ms[i])
  {
    MembersAreSeparate(ok, ms, i, j);
    SeparateIsApart(ms[i], ms[j]);
  }

  lemma MembersAreSeparate(ok: PairMaterial -> bool, ms: seq<PairMaterial>, i: nat, j: nat)
    requires Admissible(ok, ms) && i < j < |ms|
    ensures Separate(ms[i], ms[j])
  {
    AdmissibleMeans(ok, ms);
  }

  lemma SeparateIsApart(a: PairMaterial, b: PairMaterial)
    requires Separate(a, b) && a.manifest != b.manifest
    ensures Apart(a, b) && Apart(b, a)
  {
  }

  lemma GoodTwinsShow(protocol: Protocol, m: PairMaterial)
    requires GoodTwins(m, protocol)
    ensures TwinShots(Shots(m), m.manifest) && SoundSides(m)
  {
    GoodTwinsHaveFacts(m, protocol);
    PairShots(m, protocol.templates(m.templateId));
  }

  // ---------- members ----------

  lemma ViewIsListed(v: ViewKind)
    ensures ViewRank(v) < |VIEW_ORDER| && VIEW_ORDER[ViewRank(v)] == v
  {
  }

  lemma AppliedViews<T>(f: ViewKind -> T, x: T)
    ensures x in Apply(VIEW_ORDER, f) <==> exists v :: x == f(v)
  {
    var listed := Apply(VIEW_ORDER, f);
    if v :| x == f(v) {
      ViewIsListed(v);
      assert listed[ViewRank(v)] == x;
    }
    if x in listed {
      var i :| 0 <= i < |listed| && listed[i] == x;
      assert x == f(VIEW_ORDER[i]);
    }
  }

  lemma SideAssignmentFrom(protocol: Protocol, m: PairMaterial, left: bool, a: Assignment) returns (v: ViewKind)
    requires a in SideAssignments(protocol, m, left)
    ensures a == ShotAssignment(protocol, m, Shots(m), left)(v)
  {
    AppliedViews(ShotAssignment(protocol, m, Shots(m), left), a);
    v :| a == ShotAssignment(protocol, m, Shots(m), left)(v);
  }

  /** Every assignment is some view of one side of one pair. */
  lemma AssignmentFrom(protocol: Protocol, ms: seq<PairMaterial>, a: Assignment)
    returns (i: nat, left: bool, v: ViewKind)
    requires a in Flat(ms, PairAssignments(protocol))
    ensures i < |ms| && a == ShotAssignment(protocol, ms[i], Shots(ms[i]), left)(v)
  {
    FlatMembers(ms, PairAssignments(protocol), a);
    var m :| m in ms && a in PairAssignments(protocol)(m);
    i :| 0 <= i < |ms| && ms[i] == m;
    left := a in SideAssignments(protocol, m, true);
    v := SideAssignmentFrom(protocol, m, left, a);
  }

  /** Every case is some view of one side of one pair. */
  lemma CaseFrom(ms: seq<PairMaterial>, k: PublicCase) returns (i: nat, left: bool, v: ViewKind)
    requires k in Apply(Flat(ms, SixBindings), CaseOfBinding)
    ensures i < |ms| && k == ShotBinding(ms[i], Shots(ms[i]), left)(v).publicCase
  {
    var bindings := Flat(ms, SixBindings);
    var n :| 0 <= n < |bindings| && Apply(bindings, CaseOfBinding)[n] == k;
    i := EntryComesFrom(ms, bindings[n]);
    left := bindings[n] in SideBindings(ms[i], true);
    AppliedViews(ShotBinding(ms[i], Shots(ms[i]), left), bindings[n]);
    v :| bindings[n] == ShotBinding(ms[i], Shots(ms[i]), left)(v);
  }

  /** The six entries of a pair include every view of either side. */
  lemma SixCoverViews(m: PairMaterial, left: bool, v: ViewKind)
    requires TwinShots(Shots(m), m.manifest)
    ensures ShotBinding(m, Shots(m), left)(v) in SixBindings(m)
  {
    ViewIsListed(v);
    var first, second := SideBindings(m, true), SideBindings(m, false);
    var b := ShotBinding(m, Shots(m), left)(v);
    if left || Neutral(v) {
      assert Shots(m)(left, v) == Shots(m)(true, v);
      assert first[ViewRank(v)] == b;
      assert SixBindings(m)[ViewRank(v)] == b;
    } else {
      assert second[2..][ViewRank(v) - 2] == second[ViewRank(v)] == b;
    }
  }

  lemma CaseIsListed(ms: seq<PairMaterial>, i: nat, left: bool, v: ViewKind)
    requires i < |ms| && TwinShots(Shots(ms[i]), ms[i].manifest)
    ensures ShotBinding(ms[i], Shots(ms[i]), left)(v).publicCase in Apply(Flat(ms, SixBindings), CaseOfBinding)
  {
    var b := ShotBinding(ms[i], Shots(ms[i]), left)(v);
    SixCoverViews(ms[i], left, v);
    FlatMembers(ms, SixBindings, b);
    CaseOfMember(Flat(ms, SixBindings), b);
  }

  lemma CaseOfMember(bindings: seq<CaseBinding>, b: CaseBinding)
    requires b in bindings
    ensures b.publicCase in Apply(bindings, CaseOfBinding)
  {
    var n :| 0 <= n < |bindings| && bindings[n] == b;
    assert Apply(bindings, CaseOfBinding)[n] == b.publicCase;
  }

  // ---------- counting assignments ----------

  lemma SideAssignmentsDistinct(protocol: Protocol, m: PairMaterial, left: bool)
    ensures Distinct(SideAssignments(protocol, m, left))
  {
    var listed := SideAssignments(protocol, m, left);
    assert forall i :: 0 <= i < 4 ==> listed[i].view == VIEW_ORDER[i];
  }

  /** At most one view of a side satisfies a test that pins the view. */
  lemma CountOnSide(protocol: Protocol, m: PairMaterial, left: bool, p: Assignment -> bool, v: ViewKind, expected: bool)
    requires forall w :: p(ShotAssignment(protocol, m, Shots(m), left)(w)) <==> w == v && expected
    ensures |Filter(SideAssignments(protocol, m, left), p)| == if expected then 1 else 0
    ensures forall a :: a in Filter(SideAssignments(protocol, m, left), p) ==>
      a.pairId == m.pairId && a.taskId == m.taskId
  {
    var listed := SideAssignments(protocol, m, left);
    var f := ShotAssignment(protocol, m, Shots(m), left);
    forall a | a in listed ensures a.pairId == m.pairId && a.taskId == m.taskId && (p(a) <==> a == f(v) && expected) {
      var w := SideAssignmentFrom(protocol, m, left, a);
      assert a.view == w;
    }
    if expected {
      AppliedViews(f, f(v));
      SideAssignmentsDistinct(protocol, m, left);
      FilterOne(listed, p, f(v));
    } else {
      FilterNothing(listed, p);
    }
  }

  lemma FilterBothSides(protocol: Protocol, m: PairMaterial, p: Assignment -> bool)
    ensures Filter(PairAssignments(protocol)(m), p)
      == Filter(SideAssignments(protocol, m, true), p) + Filter(SideAssignments(protocol, m, false), p)
  {
    FilterAppend(SideAssignments(protocol, m, true), SideAssignments(protocol, m, false), p);
  }

  /** A digest is assigned by one pair, twice under a neutral view. */
  lemma DigestCount(protocol: Protocol, ms: seq<PairMaterial>, i: nat, left: bool, v: ViewKind)
    requires protocol.Binding() && Regular(ms) && i < |ms|
    ensures var p := WithDigest(protocol.digest(Shots(ms[i])(left, v)));
      var matching := Filter(Flat(ms, PairAssignments(protocol)), p);
      && |matching| == (if Neutral(v) then 2 else 1)
      && forall a :: a in matching ==> a.pairId == ms[i].pairId && a.taskId == ms[i].taskId
  {
    var m := ms[i];
    var shown := Shots(m);
    var p := WithDigest(protocol.digest(shown(left, v)));
    forall j, x | 0 <= j < |ms| && j != i && x in PairAssignments(protocol)(ms[j]) ensures !p(x) {
      OtherPairsDigests(protocol, ms, i, j, shown(left, v), x);
    }
    FilterOnePair(ms, PairAssignments(protocol), p, i);
    FilterBothSides(protocol, m, p);
    CountOnSide(protocol, m, true, p, v, left || Neutral(v));
    CountOnSide(protocol, m, false, p, v, !left || Neutral(v));
  }

  lemma OtherPairsDigests(protocol: Protocol, ms: seq<PairMaterial>, i: nat, j: nat, e: Evidence, x: Assignment)
    requires protocol.Binding() && Regular(ms) && i < |ms| && j < |ms| && i != j
    requires e.registry == ms[i].manifest && x in PairAssignments(protocol)(ms[j])
    ensures x.digest != protocol.digest(e)
  {
    var left := x in SideAssignments(protocol, ms[j], true);
    var w := SideAssignmentFrom(protocol, ms[j], left, x);
    assert Apart(ms[i], ms[j]);
    assert Shots(ms[j])(left, w).registry == ms[j].manifest;
  }

  // ---------- counting episodes ----------

  lemma OtherPairsEpisodes(protocol: Protocol, ms: seq<PairMaterial>, i: nat, j: nat, left: bool, x: Assignment)
    requires Regular(ms) && i < |ms| && j < |ms| && i != j
    requires x in PairAssignments(protocol)(ms[j])
    ensures x.episodeId != SideOf(ms[i], left).episodeId
  {
    var side := x in SideAssignments(protocol, ms[j], true);
    var w := SideAssignmentFrom(protocol, ms[j], side, x);
    assert Apart(ms[i], ms[j]);
    assert SideOf(ms[i], left).episodeId in {ms[i].left.episodeId, ms[i].right.episodeId};
    assert SideOf(ms[j], side).episodeId in {ms[j].left.episodeId, ms[j].right.episodeId};
  }

  ghost predicate Pins(p: Assignment -> bool, episodeId: string) {
    forall a :: p(a) ==> a.episodeId == episodeId
  }

  lemma OtherSideEpisodes(protocol: Protocol, m: PairMaterial, left: bool, x: Assignment)
    requires SoundSides(m) && x in SideAssignments(protocol, m, !left)
    ensures x.episodeId != SideOf(m, left).episodeId
  {
    var w := SideAssignmentFrom(protocol, m, !left, x);
  }

  lemma {:induction false} EpisodeOnlyHere(
      protocol: Protocol, ms: seq<PairMaterial>, i: nat, left: bool, p: Assignment -> bool)
    requires Regular(ms) && i < |ms| && Pins(p, SideOf(ms[i], left).episodeId)
    ensures Filter(Flat(ms, PairAssignments(protocol)), p) == Filter(SideAssignments(protocol, ms[i], left), p)
  {
    forall j, x | 0 <= j < |ms| && j != i && x in PairAssignments(protocol)(ms[j]) ensures !p(x) {
      OtherPairsEpisodes(protocol, ms, i, j, left, x);
    }
    FilterOnePair(ms, PairAssignments(protocol), p, i);
    FilterBothSides(protocol, ms[i], p);
    assert SoundSides(ms[i]);
    forall x | x in SideAssignments(protocol, ms[i], !left) ensures !p(x) {
      OtherSideEpisodes(protocol, ms[i], left, x);
    }
    FilterNothing(SideAssignments(protocol, ms[i], !left), p);
  }

  /** Each episode has one assignment for every view, all of its own pair. */
  lemma EpisodeCount(protocol: Protocol, ms: seq<PairMaterial>, i: nat, left: bool)
    requires Regular(ms) && i < |ms|
    ensures var e := SideOf(ms[i], left).episodeId;
      && |Filter(Flat(ms, PairAssignments(protocol)), OfEpisode(e))| == 4
      && forall v :: |Filter(Flat(ms, PairAssignments(protocol)), OfEpisodeView(e, v))| == 1
  {
    var e := SideOf(ms[i], left).episodeId;
    var listed := SideAssignments(protocol, ms[i], left);
    forall a | a in listed ensures a.episodeId == e {
      var w := SideAssignmentFrom(protocol, ms[i], left, a);
    }
    EpisodeOnlyHere(protocol, ms, i, left, OfEpisode(e));
    FilterEverything(listed, OfEpisode(e));
    forall v ensures |Filter(Flat(ms, PairAssignments(protocol)), OfEpisodeView(e, v))| == 1 {
      EpisodeOnlyHere(protocol, ms, i, left, OfEpisodeView(e, v));
      CountOnSide(protocol, ms[i], left, OfEpisodeView(e, v), v, true);
    }
  }

  // ---------- uniqueness ----------

  lemma SixAreDistinct(m: PairMaterial)
    requires TwinShots(Shots(m), m.manifest)
    ensures DistinctEvidence(SixBindings(m))
  {
    ShotsHavePattern(m, Shots(m), m.manifest);
    var left, right := SideBindings(m, true), SideBindings(m, false);
    var six := SixBindings(m);
    assert six[4] == right[2] && six[5] == right[3];
    forall i, j | 0 <= i < j < 6 ensures six[i].publicCase.evidence != six[j].publicCase.evidence {
      if j < 4 {
        assert six[i] == left[i] && six[j] == left[j];
      } else if i < 4 {
        assert six[i] == left[i] && six[j] == right[j - 2];
      }
    }
  }

  ghost predicate DistinctEvidence(bindings: seq<CaseBinding>) {
    forall i, j :: 0 <= i < j < |bindings| ==> bindings[i].publicCase.evidence != bindings[j].publicCase.evidence
  }

  lemma EntryRegistry(m: PairMaterial, b: CaseBinding)
    requires TwinShots(Shots(m), m.manifest) && b in SixBindings(m)
    ensures b.publicCase.evidence.registry == m.manifest
  {
    ShotsHavePattern(m, Shots(m), m.manifest);
    RegistryOfEntry(m, b);
  }

  /** No two cases of the whole projection show the same evidence. */
  lemma {:induction false} CasesAreDistinct(ms: seq<PairMaterial>)
    requires Regular(ms)
    ensures DistinctEvidence(Flat(ms, SixBindings))
  {
    if ms != [] {
      var before, last := ms[..|ms| - 1], ms[|ms| - 1];
      CasesAreDistinct(before);
      SixAreDistinct(last);
      forall x, y | x in Flat(before, SixBindings) && y in SixBindings(last)
        ensures x.publicCase.evidence != y.publicCase.evidence
      {
        var i := EntryComesFrom(before, x);
        EntryRegistry(before[i], x);
        EntryRegistry(last, y);
        assert Apart(ms[i], ms[|ms| - 1]);
      }
      EvidenceConcatenation(Flat(before, SixBindings), SixBindings(last));
    }
  }

  lemma EvidenceConcatenation(a: seq<CaseBinding>, b: seq<CaseBinding>)
    requires DistinctEvidence(a) && DistinctEvidence(b)
    requires forall x, y :: x in a && y in b ==> x.publicCase.evidence != y.publicCase.evidence
    ensures DistinctEvidence(a + b)
  {
    var c := a + b;
    forall i, j | 0 <= i < j < |c| ensures c[i].publicCase.evidence != c[j].publicCase.evidence {
      if i < |a| <= j {
        assert c[i] in a && c[j] in b;
      } else if |a| <= i {
        assert c[i] == b[i - |a|] && c[j] == b[j - |a|];
      }
    }
  }

  // ---------- the views as a whole ----------

  lemma ListedCasesUnique(protocol: Protocol, ms: seq<PairMaterial>)
    requires protocol.Binding() && Regular(ms)
    ensures var cases := Apply(Flat(ms, SixBindings), CaseOfBinding);
      && Distinct(cases)
      && forall a, b :: a in cases && b in cases && SameDigest(protocol, a, b) ==> a == b
  {
    CasesAreDistinct(ms);
    DistinctBindingsAreUnique(protocol, Flat(ms, SixBindings));
  }

  lemma DistinctBindingsAreUnique(protocol: Protocol, bindings: seq<CaseBinding>)
    requires protocol.Binding() && DistinctEvidence(bindings)
    ensures var cases := Apply(bindings, CaseOfBinding);
      && Distinct(cases)
      && forall a, b :: a in cases && b in cases && SameDigest(protocol, a, b) ==> a == b
  {
    var cases := Apply(bindings, CaseOfBinding);
    forall i, j | 0 <= i < j < |cases| ensures cases[i].evidence != cases[j].evidence {
      assert cases[i] == bindings[i].publicCase && cases[j] == bindings[j].publicCase;
    }
    forall a, b | a in cases && b in cases && SameDigest(protocol, a, b) ensures a == b {
      var i :| 0 <= i < |cases| && cases[i] == a;
      var j :| 0 <= j < |cases| && cases[j] == b;
      assert i == j;
    }
  }

  lemma ViewsKeepCases(protocol: Protocol, ms: seq<PairMaterial>)
    requires protocol.Binding() && Regular(ms)
    ensures UniqueCases(protocol, ViewsOf(protocol, ms))
    ensures forall k :: k in ViewsOf(protocol, ms).cases <==> k in Apply(Flat(ms, SixBindings), CaseOfBinding)
  {
    var listed := Apply(Flat(ms, SixBindings), CaseOfBinding);
    var sorted := Sort(ByKey(CaseKey(protocol)), listed);
    ListedCasesUnique(protocol, ms);
    DistinctPermutation(listed, sorted);
    SameMultiset(listed, sorted);
    assert forall k :: k in sorted <==> k in Elements(listed);
  }

  lemma ViewsKeepAssignments(protocol: Protocol, ms: seq<PairMaterial>, p: Assignment -> bool)
    ensures |Filter(ViewsOf(protocol, ms).assignments, p)| == |Filter(Flat(ms, PairAssignments(protocol)), p)|
    ensures forall a :: a in ViewsOf(protocol, ms).assignments <==> a in Flat(ms, PairAssignments(protocol))
  {
    var listed := Flat(ms, PairAssignments(protocol));
    var sorted := Sort(ByKey(AssignmentKey), listed);
    FilterPermutation(sorted, listed, p);
    SameMultiset(listed, sorted);
    assert forall a :: a in sorted <==> a in Elements(listed);
  }

  lemma CaseHasMultiplicity(protocol: Protocol, ms: seq<PairMaterial>, k: PublicCase)
    requires protocol.Binding() && Regular(ms) && k in Apply(Flat(ms, SixBindings), CaseOfBinding)
    ensures RightMultiplicity(protocol, ViewsOf(protocol, ms), k)
  {
    var i, left, v := CaseFrom(ms, k);
    var p := WithDigest(protocol.digest(k.evidence));
    DigestCount(protocol, ms, i, left, v);
    ViewsKeepAssignments(protocol, ms, p);
  }

  lemma EpisodeIsCovered(protocol: Protocol, ms: seq<PairMaterial>, i: nat, left: bool)
    requires Regular(ms) && i < |ms|
    ensures CoveredEpisode(ViewsOf(protocol, ms), RouteFor(protocol)(ms[i]), SideRoute(protocol, ms[i], left))
  {
    var e := SideOf(ms[i], left).episodeId;
    EpisodeCount(protocol, ms, i, left);
    ViewsKeepAssignments(protocol, ms, OfEpisode(e));
    forall v ensures |Filter(ViewsOf(protocol, ms).assignments, OfEpisodeView(e, v))| == 1 {
      ViewsKeepAssignments(protocol, ms, OfEpisodeView(e, v));
    }
    forall a | a in Flat(ms, PairAssignments(protocol)) && a.episodeId == e
      ensures a.pairId == ms[i].pairId && a.taskId == ms[i].taskId && a.templateId == ms[i].templateId
        && a.split == ms[i].split
    {
      EpisodeStaysInPair(protocol, ms, i, left, a);
    }
    assert SoundSides(ms[i]);
  }

  lemma {:induction false} EpisodeStaysInPair(
      protocol: Protocol, ms: seq<PairMaterial>, i: nat, left: bool, a: Assignment)
    requires Regular(ms) && i < |ms|
    requires a in Flat(ms, PairAssignments(protocol)) && a.episodeId == SideOf(ms[i], left).episodeId
    ensures a.pairId == ms[i].pairId && a.taskId == ms[i].taskId
    ensures a.templateId == ms[i].templateId && a.split == ms[i].split
  {
    EpisodeOnlyHere(protocol, ms, i, left, OfEpisode(a.episodeId));
    assert a in Filter(Flat(ms, PairAssignments(protocol)), OfEpisode(a.episodeId));
    var w := SideAssignmentFrom(protocol, ms[i], left, a);
  }

  lemma ShotIsRouted(protocol: Protocol, m: PairMaterial, left: bool, v: ViewKind)
    requires TwinShots(Shots(m), m.manifest) && SoundSides(m)
    ensures RoutedBy(
      protocol, ShotAssignment(protocol, m, Shots(m), left)(v), RouteFor(protocol)(m), SideRoute(protocol, m, left),
      ShotBinding(m, Shots(m), left)(v).publicCase)
  {
    AppliedViews(ShotDigest(protocol, Shots(m), left), ShotDigest(protocol, Shots(m), left)(v));
  }

  lemma AssignmentIsJoined(protocol: Protocol, ms: seq<PairMaterial>, a: Assignment)
    requires protocol.Binding() && Regular(ms) && a in Flat(ms, PairAssignments(protocol))
    ensures Joined(protocol, ViewsOf(protocol, ms), a)
  {
    var i, left, v := AssignmentFrom(protocol, ms, a);
    var m := ms[i];
    ShotIsRouted(protocol, m, left, v);
    CaseIsListed(ms, i, left, v);
    ViewsKeepCases(protocol, ms);
    assert ViewsOf(protocol, ms).routes[i] == RouteFor(protocol)(m);
    JoinedBy(protocol, ViewsOf(protocol, ms), a, RouteFor(protocol)(m), SideRoute(protocol, m, left),
             ShotBinding(m, Shots(m), left)(v).publicCase);
  }

  lemma JoinedBy(
      protocol: Protocol, views: EvidenceViews, a: Assignment, route: PairRoute, side: CompletionRoute, k: PublicCase)
    requires route in views.routes && k in views.cases && RoutedBy(protocol, a, route, side, k)
    ensures Joined(protocol, views, a)
  {
  }

  lemma RoutesAreUnique(protocol: Protocol, ms: seq<PairMaterial>)
    requires Regular(ms)
    ensures UniqueRoutes(ViewsOf(protocol, ms))
  {
    var routes := ViewsOf(protocol, ms).routes;
    forall i | 0 <= i < |routes| ensures routes[i].left.episodeId != routes[i].right.episodeId {
      assert SoundSides(ms[i]);
    }
    forall i, j | 0 <= i < j < |routes| ensures SeparateRoutes(routes[i], routes[j]) {
      assert Apart(ms[i], ms[j]) && SoundSides(ms[i]) && SoundSides(ms[j]);
    }
  }

  lemma ViewsAreOrdered(protocol: Protocol, materials: seq<PairMaterial>)
    requires forall m :: m in materials ==> m.taskId == m.manifest.taskId
    ensures CanonicalOrder(protocol, ViewsOf(protocol, Sort(ByKey(MaterialKey), materials)))
  {
    var ordered := Sort(ByKey(MaterialKey), materials);
    var views := ViewsOf(protocol, ordered);
    ByKeyIsOrdered(AssignmentKey);
    ByKeyIsOrdered(CaseKey(protocol));
    SortSorts(ByKey(AssignmentKey), Flat(ordered, PairAssignments(protocol)));
    SortFixesSorted(ByKey(AssignmentKey), views.assignments);
    SortSorts(ByKey(CaseKey(protocol)), Apply(Flat(ordered, SixBindings), CaseOfBinding));
    SortFixesSorted(ByKey(CaseKey(protocol)), views.cases);
    RoutesAreOrdered(protocol, materials);
  }

  lemma RoutesAreOrdered(protocol: Protocol, materials: seq<PairMaterial>)
    requires forall m :: m in materials ==> m.taskId == m.manifest.taskId
    ensures var routes := Apply(Sort(ByKey(MaterialKey), materials), RouteFor(protocol));
      Sort(ByKey(RouteKey), routes) == routes
  {
    var ordered := Sort(ByKey(MaterialKey), materials);
    var routes := Apply(ordered, RouteFor(protocol));
    ByKeyIsOrdered(MaterialKey);
    ByKeyIsOrdered(RouteKey);
    SortSorts(ByKey(MaterialKey), materials);
    SameMultiset(materials, ordered);
    forall i, j | 0 <= i < j < |routes| ensures ByKey(RouteKey)(routes[i], routes[j]) {
      assert ordered[i] in Elements(materials) && ordered[j] in Elements(materials);
      assert RouteKey(routes[i]) == MaterialKey(ordered[i]) && RouteKey(routes[j]) == MaterialKey(ordered[j]);
      assert ByKey(MaterialKey)(ordered[i], ordered[j]);
    }
    SortFixesSorted(ByKey(RouteKey), routes);
  }

  lemma ViewCounts(protocol: Protocol, ms: seq<PairMaterial>)
    ensures var views := ViewsOf(protocol, ms);
      |views.routes| == |ms| && |views.assignments| == 8 * |ms| && |views.cases| == 6 * |ms|
  {
    FlatLength(ms, PairAssignments(protocol), 8);
    FlatLength(ms, SixBindings, 6);
    SameMultiset(ViewsOf(protocol, ms).assignments, Flat(ms, PairAssignments(protocol)));
    SameMultiset(ViewsOf(protocol, ms).cases, Apply(Flat(ms, SixBindings), CaseOfBinding));
  }

  lemma EveryAssignmentJoins(protocol: Protocol, ms: seq<PairMaterial>)
    requires protocol.Binding() && Regular(ms)
    ensures forall a :: a in ViewsOf(protocol, ms).assignments ==> Joined(protocol, ViewsOf(protocol, ms), a)
  {
    forall a | a in ViewsOf(protocol, ms).assignments ensures Joined(protocol, ViewsOf(protocol, ms), a) {
      ViewsKeepAssignments(protocol, ms, WithDigest(a.digest));
      AssignmentIsJoined(protocol, ms, a);
    }
  }

  lemma EveryCaseCounts(protocol: Protocol, ms: seq<PairMaterial>)
    requires protocol.Binding() && Regular(ms)
    ensures forall k :: k in ViewsOf(protocol, ms).cases ==> RightMultiplicity(protocol, ViewsOf(protocol, ms), k)
  {
    ViewsKeepCases(protocol, ms);
    forall k | k in ViewsOf(protocol, ms).cases ensures RightMultiplicity(protocol, ViewsOf(protocol, ms), k) {
      CaseHasMultiplicity(protocol, ms, k);
    }
  }

  lemma EveryEpisodeIsCovered(protocol: Protocol, ms: seq<PairMaterial>)
    requires Regular(ms)
    ensures var views := ViewsOf(protocol, ms);
      forall r :: r in views.routes ==> CoveredEpisode(views, r, r.left) && CoveredEpisode(views, r, r.right)
  {
    var views := ViewsOf(protocol, ms);
    forall r | r in views.routes ensures CoveredEpisode(views, r, r.left) && CoveredEpisode(views, r, r.right) {
      var i :| 0 <= i < |views.routes| && views.routes[i] == r;
      EpisodeIsCovered(protocol, ms, i, true);
      EpisodeIsCovered(protocol, ms, i, false);
    }
  }

  lemma TasksMatchManifests(materials: seq<PairMaterial>)
    requires Regular(Sort(ByKey(MaterialKey), materials))
    ensures forall m :: m in materials ==> m.taskId == m.manifest.taskId
  {
    var ms := Sort(ByKey(MaterialKey), materials);
    SameMultiset(materials, ms);
    forall m | m in materials ensures m.taskId == m.manifest.taskId {
      assert m in Elements(ms);
      var i :| 0 <= i < |ms| && ms[i] == m;
      assert SoundSides(ms[i]);
    }
  }

  lemma {:induction false} RegularViewsAreListed(protocol: Protocol, materials: seq<PairMaterial>)
    requires protocol.Binding() && Regular(Sort(ByKey(MaterialKey), materials))
    ensures WellListed(protocol, ViewsOf(protocol, Sort(ByKey(MaterialKey), materials)), |materials|)
  {
    var ms := Sort(ByKey(MaterialKey), materials);
    SameMultiset(materials, ms);
    TasksMatchManifests(materials);
    ViewsAreOrdered(protocol, materials);
    ViewCounts(protocol, ms);
    ViewsKeepCases(protocol, ms);
    RoutesAreUnique(protocol, ms);
  }

  lemma {:induction false} RegularViewsAreJoined(protocol: Protocol, ms: seq<PairMaterial>)
    requires protocol.Binding() && Regular(ms)
    ensures WellJoined(protocol, ViewsOf(protocol, ms))
  {
    EveryAssignmentJoins(protocol, ms);
    EveryCaseCounts(protocol, ms);
    EveryEpisodeIsCovered(protocol, ms);
  }

  /** For any number of admissible pairs the projection passes every check that
      is made on evidence views: eight assignments and six cases a pair, each
      case assigned once or, under a neutral view, to both twins. */
  lemma {:induction false} ProjectedViewsAreValid(protocol: Protocol, materials: seq<PairMaterial>)
    requires protocol.Binding() && Admissible(Good(protocol), Sort(ByKey(MaterialKey), materials))
    ensures var views := ViewsOf(protocol, Sort(ByKey(MaterialKey), materials));
      WellListed(protocol, views, |materials|) && WellJoined(protocol, views)
  {
    AdmissibleIsRegular(protocol, Sort(ByKey(MaterialKey), materials));
    RegularViewsAreListed(protocol, materials);
    RegularViewsAreJoined(protocol, Sort(ByKey(MaterialKey), materials));
  }
}
