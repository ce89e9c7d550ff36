/** The denominators of projected evidence views, for any number of pairs
    (src/witnessgap/workspace100/views.py:1202-1237). */
module ViewCounts {
  import opened Model
  import opened Order
  import opened Permutations
  import opened Records
  import opened Views
  import opened Projection
  import opened Projector
  import opened Routing
  import opened Routes
  import opened Truth
  import opened RouteCases
  import opened TruthSet
  import opened Denominators

  function ShowsView(v: ViewKind): PublicCase -> bool {
    (k: PublicCase) => k.view == v
  }

  function ShowsTemplate(t: TemplateId): PublicCase -> bool {
    (k: PublicCase) => k.templateId == t
  }

  function ShowsSplit(split: Split): PublicCase -> bool {
    (k: PublicCase) => k.split == split
  }

  function AssignsView(v: ViewKind): Assignment -> bool {
    (a: Assignment) => a.view == v
  }

  function AssignsPair(pairId: string): Assignment -> bool {
    (a: Assignment) => a.pairId == pairId
  }

  function AssignedDigest(a: Assignment): string {
    a.digest
  }

  /** `_validate_evidence_view_counts`, except for the episode counts, which
      `CoveredEpisode` states. */
  ghost predicate WellCounted(views: EvidenceViews, pairs: nat) {
    && (forall v :: |Filter(views.assignments, AssignsView(v))| == 2 * pairs)
    && (forall v :: |Filter(views.cases, ShowsView(v))| == CasesShown(v) * pairs)
    && (forall t :: |Filter(views.cases, ShowsTemplate(t))| == 6 * |Filter(views.routes, RouteTemplate(t))|)
    && (forall s :: |Filter(views.cases, ShowsSplit(s))| == 6 * |Filter(views.routes, RouteSplit(s))|)
    && (forall t, v :: |Filter(views.cases, Both(ShowsTemplate(t), ShowsView(v)))|
                       == CasesShown(v) * |Filter(views.routes, RouteTemplate(t))|)
    && forall r :: r in views.routes ==> PairAssigned(views.assignments, r.pairId)
  }

  /** Eight assignments to six digests. */
  ghost predicate PairAssigned(assignments: seq<Assignment>, pairId: string) {
    && |Filter(assignments, AssignsPair(pairId))| == 8
    && |Elements(Apply(Filter(assignments, AssignsPair(pairId)), AssignedDigest))| == 6
  }

  /** `PublicEvidenceCase.validate`: the case shows what its view is for, and no more. */
  predicate ValidPublicCase(protocol: Protocol, k: PublicCase) {
    var template := protocol.templates(k.templateId);
    k.split == template.split && ExposesView(k.evidence, template, k.view)
  }

  /** `Workspace100EvidenceViews.validate`, but for the scan for private text. */
  ghost predicate ValidViews(protocol: Protocol, views: EvidenceViews, pairs: nat) {
    && (forall r :: r in views.routes ==> ValidRoute(protocol, r))
    && (forall k :: k in views.cases ==> ValidPublicCase(protocol, k))
    && WellListed(protocol, views, pairs) && WellJoined(protocol, views) && WellCounted(views, pairs)
  }

  lemma ShotIsValid(protocol: Protocol, m: PairMaterial, left: bool, v: ViewKind)
    requires GoodTwins(m, protocol)
    ensures ValidPublicCase(protocol, ShotBinding(m, Shots(m), left)(v).publicCase)
  {
    GoodTwinsHaveFacts(m, protocol);
    ProjectionShows(m, protocol.templates(m.templateId), SideOf(m, left), v);
    ShotIsProjected(m, left, v);
  }

  lemma PublicCasesAreValid(protocol: Protocol, ms: seq<PairMaterial>)
    requires protocol.Binding() && Admissible(Good(protocol), ms)
    ensures forall k :: k in ViewsOf(protocol, ms).cases ==> ValidPublicCase(protocol, k)
  {
    AdmissibleIsRegular(protocol, ms);
    ViewsKeepCases(protocol, ms);
    forall k | k in ViewsOf(protocol, ms).cases ensures ValidPublicCase(protocol, k) {
      var i, left, v := CaseFrom(ms, k);
      MemberIsGood(Good(protocol), ms, i);
      ShotIsValid(protocol, ms[i], left, v);
    }
  }

  // ---------- cases ----------

  /** Counting public cases is counting their truth. */
  lemma CountPublic(protocol: Protocol, ms: seq<PairMaterial>, p: TruthCase -> bool, q: PublicCase -> bool)
    requires protocol.Binding() && Regular(ms)
    requires forall c: TruthCase :: p(c) <==> q(c.publicCase)
    ensures |Filter(ViewsOf(protocol, ms).cases, q)| == |Filter(TruthFor(protocol, ms).cases, p)|
  {
    TruthKeepsCases(protocol, ms);
    ApplyFilter(TruthFor(protocol, ms).cases, PublicOf, p, q);
  }

  lemma ReadsTemplateView(protocol: Protocol, m: PairMaterial, t: TemplateId, v: ViewKind)
    ensures ReadsAs(
      TruthAt(protocol, m), Both(OfTemplate(t), OfView(v)), if m.templateId == t then AtView(v) else Everywhere(false))
  {
    var p := Both(OfTemplate(t), OfView(v));
    forall s: Slot ensures p(TruthAt(protocol, m)(s)) <==> m.templateId == t && s.1 == v {
      TruthSays(protocol, m, s);
    }
  }

  lemma TemplateViewCount(protocol: Protocol, m: PairMaterial, t: TemplateId, v: ViewKind)
    ensures |Filter(PairTruths(protocol)(m), Both(OfTemplate(t), OfView(v)))|
      == if m.templateId == t then CasesShown(v) else 0
  {
    ReadsTemplateView(protocol, m, t, v);
    CountPair(protocol, m, Both(OfTemplate(t), OfView(v)), if m.templateId == t then AtView(v) else Everywhere(false));
    SlotCounts(v, true);
  }

  lemma TemplateViewCases(protocol: Protocol, ms: seq<PairMaterial>, t: TemplateId, v: ViewKind)
    ensures |Filter(TruthFor(protocol, ms).cases, Both(OfTemplate(t), OfView(v)))|
      == CasesShown(v) * |Filter(ms, InTemplate(t))|
  {
    var p := Both(OfTemplate(t), OfView(v));
    forall m | m in ms ensures |Filter(PairTruths(protocol)(m), p)| == if InTemplate(t)(m) then CasesShown(v) else 0 {
      TemplateViewCount(protocol, m, t, v);
    }
    CountTruths(protocol, ms, p, InTemplate(t), CasesShown(v));
  }

  lemma TemplateViewTotal(protocol: Protocol, ms: seq<PairMaterial>, t: TemplateId, v: ViewKind)
    requires protocol.Binding() && Regular(ms)
    ensures |Filter(ViewsOf(protocol, ms).cases, Both(ShowsTemplate(t), ShowsView(v)))|
      == CasesShown(v) * |Filter(ViewsOf(protocol, ms).routes, RouteTemplate(t))|
  {
    CountPublic(protocol, ms, Both(OfTemplate(t), OfView(v)), Both(ShowsTemplate(t), ShowsView(v)));
    TemplateViewCases(protocol, ms, t, v);
    CountRoutes(protocol, ms, InTemplate(t), RouteTemplate(t));
  }

  lemma ShownView(protocol: Protocol, ms: seq<PairMaterial>, v: ViewKind)
    requires protocol.Binding() && Regular(ms)
    ensures |Filter(ViewsOf(protocol, ms).cases, ShowsView(v))| == CasesShown(v) * |ms|
  {
    CountPublic(protocol, ms, OfView(v), ShowsView(v));
    ViewTotal(protocol, ms, v);
  }

  lemma ShownTemplate(protocol: Protocol, ms: seq<PairMaterial>, t: TemplateId)
    requires protocol.Binding() && Regular(ms)
    ensures |Filter(ViewsOf(protocol, ms).cases, ShowsTemplate(t))|
      == 6 * |Filter(ViewsOf(protocol, ms).routes, RouteTemplate(t))|
  {
    CountPublic(protocol, ms, OfTemplate(t), ShowsTemplate(t));
    TemplateTotal(protocol, ms, t);
  }

  lemma ShownSplit(protocol: Protocol, ms: seq<PairMaterial>, split: Split)
    requires protocol.Binding() && Regular(ms)
    ensures |Filter(ViewsOf(protocol, ms).cases, ShowsSplit(split))|
      == 6 * |Filter(ViewsOf(protocol, ms).routes, RouteSplit(split))|
  {
    CountPublic(protocol, ms, OfSplit(split), ShowsSplit(split));
    SplitTotal(protocol, ms, split);
  }

  // ---------- assignments ----------

  lemma AssignedInPair(protocol: Protocol, m: PairMaterial, v: ViewKind)
    ensures |Filter(PairAssignments(protocol)(m), AssignsView(v))| == 2
  {
    FilterBothSides(protocol, m, AssignsView(v));
    CountOnSide(protocol, m, true, AssignsView(v), v, true);
    CountOnSide(protocol, m, false, AssignsView(v), v, true);
  }

  lemma AssignedView(protocol: Protocol, ms: seq<PairMaterial>, v: ViewKind)
    ensures |Filter(ViewsOf(protocol, ms).assignments, AssignsView(v))| == 2 * |ms|
  {
    forall m | m in ms ensures |Filter(PairAssignments(protocol)(m), AssignsView(v))| == if Always()(m) then 2 else 0 {
      AssignedInPair(protocol, m, v);
    }
    FlatCount(ms, PairAssignments(protocol), AssignsView(v), Always(), 2);
    FilterEverything(ms, Always());
    ViewsKeepAssignments(protocol, ms, AssignsView(v));
  }

  lemma AssignmentNamesPair(protocol: Protocol, m: PairMaterial, a: Assignment)
    requires a in PairAssignments(protocol)(m)
    ensures a.pairId == m.pairId
  {
    var left := a in SideAssignments(protocol, m, true);
    var v := SideAssignmentFrom(protocol, m, left, a);
  }

  lemma OnlyOwnAssignments(protocol: Protocol, ms: seq<PairMaterial>, i: nat)
    requires Regular(ms) && i < |ms|
    ensures Filter(Flat(ms, PairAssignments(protocol)), AssignsPair(ms[i].pairId)) == PairAssignments(protocol)(ms[i])
  {
    var p := AssignsPair(ms[i].pairId);
    forall j, a | 0 <= j < |ms| && j != i && a in PairAssignments(protocol)(ms[j]) ensures !p(a) {
      AssignmentNamesPair(protocol, ms[j], a);
      assert Apart(ms[i], ms[j]);
    }
    FilterOnePair(ms, PairAssignments(protocol), p, i);
    forall a | a in PairAssignments(protocol)(ms[i]) ensures p(a) {
      AssignmentNamesPair(protocol, ms[i], a);
    }
    FilterEverything(PairAssignments(protocol)(ms[i]), p);
  }

  lemma PairDigests(protocol: Protocol, m: PairMaterial)
    ensures Elements(Apply(PairAssignments(protocol)(m), AssignedDigest)) == RouteDigests(RouteFor(protocol)(m))
  {
    var route := RouteFor(protocol)(m);
    SideDigests(protocol, m, true);
    SideDigests(protocol, m, false);
    ApplyConcatenation(SideAssignments(protocol, m, true), SideAssignments(protocol, m, false), AssignedDigest);
    ApplyConcatenation(route.left.digests, route.right.digests, DigestOf);
  }

  lemma SideDigests(protocol: Protocol, m: PairMaterial, left: bool)
    ensures Apply(SideAssignments(protocol, m, left), AssignedDigest)
      == Apply(SideRoute(protocol, m, left).digests, DigestOf)
  {
  }

  lemma SortedDigests(
      assignments: seq<Assignment>, own: seq<Assignment>, sorted: seq<Assignment>, p: Assignment -> bool)
    requires multiset(sorted) == multiset(assignments) && Filter(assignments, p) == own
    ensures |Filter(sorted, p)| == |own|
    ensures Elements(Apply(Filter(sorted, p), AssignedDigest)) == Elements(Apply(own, AssignedDigest))
  {
    FilterPermutation(sorted, assignments, p);
    ApplyPermutation(Filter(sorted, p), own, AssignedDigest);
    SameMultiset(Apply(Filter(sorted, p), AssignedDigest), Apply(own, AssignedDigest));
  }

  lemma PairIsAssigned(protocol: Protocol, ms: seq<PairMaterial>, i: nat)
    requires protocol.Binding() && Regular(ms) && i < |ms|
    ensures PairAssigned(ViewsOf(protocol, ms).assignments, ms[i].pairId)
  {
    var listed := Flat(ms, PairAssignments(protocol));
    OnlyOwnAssignments(protocol, ms, i);
    SortedDigests(
      listed, PairAssignments(protocol)(ms[i]), Sort(ByKey(AssignmentKey), listed), AssignsPair(ms[i].pairId));
    PairDigests(protocol, ms[i]);
    SixRouteDigests(protocol, ms[i]);
  }

  lemma RouteIsAssigned(protocol: Protocol, ms: seq<PairMaterial>, r: PairRoute)
    requires protocol.Binding() && Regular(ms) && r in Apply(ms, RouteFor(protocol))
    ensures PairAssigned(ViewsOf(protocol, ms).assignments, r.pairId)
  {
    var m := ImageOf(ms, RouteFor(protocol), r);
    var i :| 0 <= i < |ms| && ms[i] == m;
    RouteNames(protocol, m);
    PairIsAssigned(protocol, ms, i);
  }

  /** The denominators of a projection are right for any number of pairs. */
  lemma ViewsAreCounted(protocol: Protocol, ms: seq<PairMaterial>)
    requires protocol.Binding() && Regular(ms)
    ensures WellCounted(ViewsOf(protocol, ms), |ms|)
  {
    var views := ViewsOf(protocol, ms);
    forall v ensures |Filter(views.assignments, AssignsView(v))| == 2 * |ms| {
      AssignedView(protocol, ms, v);
    }
    forall v ensures |Filter(views.cases, ShowsView(v))| == CasesShown(v) * |ms| {
      ShownView(protocol, ms, v);
    }
    forall t ensures |Filter(views.cases, ShowsTemplate(t))| == 6 * |Filter(views.routes, RouteTemplate(t))| {
      ShownTemplate(protocol, ms, t);
    }
    forall s ensures |Filter(views.cases, ShowsSplit(s))| == 6 * |Filter(views.routes, RouteSplit(s))| {
      ShownSplit(protocol, ms, s);
    }
    forall t, v
      ensures |Filter(views.cases, Both(ShowsTemplate(t), ShowsView(v)))|
        == CasesShown(v) * |Filter(views.routes, RouteTemplate(t))|
    {
      TemplateViewTotal(protocol, ms, t, v);
    }
    forall r | r in views.routes ensures PairAssigned(views.assignments, r.pairId) {
      RouteIsAssigned(protocol, ms, r);
    }
  }

  /** For any number of admissible pairs the projection passes every check on views. */
  lemma {:induction false} ViewsAreValid(protocol: Protocol, materials: seq<PairMaterial>)
    requires protocol.Binding() && Admissible(Good(protocol), Sort(ByKey(MaterialKey), materials))
    ensures ValidViews(protocol, ViewsOf(protocol, Sort(ByKey(MaterialKey), materials)), |materials|)
  {
    var ordered := Sort(ByKey(MaterialKey), materials);
    SameMultiset(ordered, materials);
    AdmissibleIsRegular(protocol, ordered);
    RoutesAreValid(protocol, ordered);
    PublicCasesAreValid(protocol, ordered);
    ProjectedViewsAreValid(protocol, materials);
    ViewsAreCounted(protocol, ordered);
  }
}
