/** The truth set of a release, for any number of pairs: canonical order, the
    projection that it binds, its routes and its cases
    (src/witnessgap/workspace100/truth.py:285-323, 602-774). */
module TruthSet {
  import opened Model
  import opened Order
  import opened Permutations
  import opened Attribution
  import opened Views
  import opened Projection
  import opened Projector
  import opened Routes
  import opened Truth
  import opened RouteCases

  /** `Workspace100TruthSet`; the views stand for the roots that it stores. */
  datatype TruthSet = TruthSet(binding: EvidenceViews, routes: seq<PairRoute>, cases: seq<TruthCase>)

  function TruthKey(c: TruthCase): Key {
    Key(ViewRank(c.publicCase.view), [], TemplateRank(c.publicCase.templateId), c.digest)
  }

  function PublicOf(c: TruthCase): PublicCase {
    c.publicCase
  }

  // ---------- the validators ----------

  /** `_validate_truth_set_order` */
  ghost predicate TruthOrder(truth: TruthSet) {
    && truth.routes == Sort(ByKey(RouteKey), truth.routes)
    && truth.cases == Sort(ByKey(TruthKey), truth.cases)
  }

  function AssignmentOf(c: TruthCase): string -> Assignment {
    (episodeId: string) => Assignment(
      c.pairId, c.taskId, episodeId, c.publicCase.templateId, c.publicCase.split, c.publicCase.view, c.digest)
  }

  function CaseAssignments(c: TruthCase): seq<Assignment> {
    Apply(c.assignmentEpisodeIds, AssignmentOf(c))
  }

  /** `_reconstruct_public_views` */
  function Reconstructed(truth: TruthSet): EvidenceViews {
    EvidenceViews(
      truth.routes,
      Sort(ByKey(AssignmentKey), Flat(truth.cases, CaseAssignments)),
      Apply(truth.cases, PublicOf))
  }

  /** `_validate_projection_binding` */
  ghost predicate BindsProjection(truth: TruthSet) {
    Reconstructed(truth) == truth.binding
  }

  predicate UnrelatedSides(a: CompletionRoute, b: CompletionRoute) {
    a.episodeId != b.episodeId && a.commitment != b.commitment && a.snapshot != b.snapshot
  }

  /** `_TruthSourceBinding.validate` */
  ghost predicate ValidSource(protocol: Protocol, side: CompletionRoute) {
    && side.episodeId == protocol.ids.episodeId(side.commitment)
    && |side.digests| == |VIEW_ORDER|
    && (forall i :: 0 <= i < |side.digests| ==> side.digests[i].0 == VIEW_ORDER[i])
    && forall i, j :: 0 <= i < j < |side.digests| ==> side.digests[i].1 != side.digests[j].1
  }

  /** `_TruthPairRoute.validate` */
  ghost predicate ValidRoute(protocol: Protocol, route: PairRoute) {
    var template := protocol.templates(route.templateId);
    && route.split == template.split
    && ManifestCheck(route.manifest) && ManifestMatchesTemplate(route.manifest, template)
    && ValidSource(protocol, route.left) && ValidSource(protocol, route.right)
    && [route.left.commitment, route.right.commitment] == route.manifest.candidateCommitments
    && UnrelatedSides(route.left, route.right)
    && route.pairId == protocol.ids.pairId((route.left.commitment, route.right.commitment))
  }

  ghost predicate UnrelatedRoutes(a: PairRoute, b: PairRoute) {
    && a.pairId != b.pairId && a.manifest.taskId != b.manifest.taskId && a.manifest != b.manifest
    && UnrelatedSides(a.left, b.left) && UnrelatedSides(a.left, b.right)
    && UnrelatedSides(a.right, b.left) && UnrelatedSides(a.right, b.right)
  }

  /** `_validate_truth_set_routes`: every route is valid, and no identity is used twice. */
  ghost predicate ValidRoutes(protocol: Protocol, routes: seq<PairRoute>) {
    && (forall i :: 0 <= i < |routes| ==> ValidRoute(protocol, routes[i]))
    && forall i, j :: 0 <= i < j < |routes| ==> UnrelatedRoutes(routes[i], routes[j])
  }

  /** `_validate_truth_set_cases`, on one case. */
  ghost predicate RoutedTruth(protocol: Protocol, routes: seq<PairRoute>, c: TruthCase) {
    && ValidTruthCase(protocol, c)
    && exists route :: route in routes && ValidRoutedCase(protocol, c, route)
  }

  ghost predicate ValidCases(protocol: Protocol, truth: TruthSet) {
    forall c :: c in truth.cases ==> RoutedTruth(protocol, truth.routes, c)
  }

  // ---------- the truth set that is authored ----------

  /** The truth of materials in projection order. */
  function TruthFor(protocol: Protocol, ordered: seq<PairMaterial>): TruthSet {
    TruthSet(
      ViewsOf(protocol, ordered), Apply(ordered, RouteFor(protocol)),
      Sort(ByKey(TruthKey), Flat(ordered, PairTruths(protocol))))
  }

  /** What the proofs need to know of the materials of a release. */
  ghost predicate SoundMaterials(protocol: Protocol, ms: seq<PairMaterial>) {
    && protocol.Binding() && Regular(ms)
    && (forall i :: 0 <= i < |ms| ==> SoundTwins(ms[i], protocol.templates(ms[i].templateId)))
    && forall i, j :: 0 <= i < |ms| && 0 <= j < |ms| && i != j ==> OtherCommitments(ms[i], ms[j])
  }

  ghost predicate OtherCommitments(a: PairMaterial, b: PairMaterial) {
    {a.left.commitment, a.right.commitment} !! {b.left.commitment, b.right.commitment}
  }

  lemma GoodTwinsAreSound(protocol: Protocol, m: PairMaterial)
    requires GoodTwins(m, protocol)
    ensures SoundTwins(m, protocol.templates(m.templateId))
  {
    var t := protocol.templates(m.templateId);
    GoodTwinsHaveFacts(m, protocol);
    AtomsOfTemplate(t);
    CommitmentsAreOrdered(m.manifest, m.left.commitment, m.right.commitment);
  }

  lemma CommitmentsAreOrdered(manifest: Manifest, a: string, b: string)
    requires manifest.Valid() && [a, b] == manifest.candidateCommitments
    ensures StringLe(a, b) && a != b
  {
    var both := manifest.candidateCommitments;
    assert both[0] == a && both[1] == b;
  }

  lemma AdmissibleIsSound(protocol: Protocol, ms: seq<PairMaterial>)
    requires protocol.Binding() && Admissible(Good(protocol), ms)
    ensures SoundMaterials(protocol, ms)
  {
    AdmissibleIsRegular(protocol, ms);
    forall i | 0 <= i < |ms| ensures SoundTwins(ms[i], protocol.templates(ms[i].templateId)) {
      MemberIsGood(Good(protocol), ms, i);
      GoodTwinsAreSound(protocol, ms[i]);
    }
    forall i, j | 0 <= i < |ms| && 0 <= j < |ms| && i != j ensures OtherCommitments(ms[i], ms[j]) {
      MembersShareNoCommitment(Good(protocol), ms, if i < j then i else j, if i < j then j else i);
    }
  }

  lemma MembersShareNoCommitment(ok: PairMaterial -> bool, ms: seq<PairMaterial>, i: nat, j: nat)
    requires Admissible(ok, ms) && i < j < |ms|
    ensures OtherCommitments(ms[i], ms[j]) && OtherCommitments(ms[j], ms[i])
  {
    AdmissibleMeans(ok, ms);
    assert Separate(ms[i], ms[j]);
  }

  // ---------- the cases are those of the projection ----------

  function SlotCases(m: PairMaterial): seq<PublicCase> {
    Apply(SIX_SLOTS, SlotCase(m))
  }

  lemma SixBindingCases(m: PairMaterial)
    ensures Apply(SixBindings(m), CaseOfBinding) == SlotCases(m)
  {
    var bindings := SixBindings(m);
    var left, right := SideBindings(m, true), SideBindings(m, false);
    assert bindings[4] == right[2] && bindings[5] == right[3];
    forall k | 0 <= k < 6 ensures bindings[k].publicCase == SlotCase(m)(SIX_SLOTS[k]) {
      SlotShows(m, SIX_SLOTS[k]);
      if k < 4 {
        assert bindings[k] == left[k];
      }
    }
  }

  /** The projected cases are the slot cases of all pairs. */
  lemma ProjectedCases(ms: seq<PairMaterial>)
    ensures Apply(Flat(ms, SixBindings), CaseOfBinding) == Flat(ms, SlotCases)
  {
    forall m | m in ms ensures Apply(SixBindings(m), CaseOfBinding) == SlotCases(m) {
      SixBindingCases(m);
    }
    ApplyFlat(ms, SixBindings, CaseOfBinding, SlotCases);
  }

  lemma TruthIsPublic(protocol: Protocol, m: PairMaterial, s: Slot)
    ensures TruthAt(protocol, m)(s).publicCase == SlotCase(m)(s)
    ensures TruthAt(protocol, m)(s).digest == protocol.digest(SlotCase(m)(s).evidence)
    ensures TruthAt(protocol, m)(s).certificate == CertificateOf(m, s.0, s.1)
    ensures TruthAt(protocol, m)(s).pairId == m.pairId
  {
    SlotShows(m, s);
  }

  lemma PublicPair(protocol: Protocol, m: PairMaterial)
    ensures Apply(PairTruths(protocol)(m), PublicOf) == SlotCases(m)
  {
    var f := TruthAt(protocol, m);
    forall k | 0 <= k < |SIX_SLOTS| ensures f(SIX_SLOTS[k]).publicCase == SlotCase(m)(SIX_SLOTS[k]) {
      TruthIsPublic(protocol, m, SIX_SLOTS[k]);
    }
  }

  lemma PublicTruths(protocol: Protocol, ms: seq<PairMaterial>)
    ensures Apply(Flat(ms, PairTruths(protocol)), PublicOf) == Flat(ms, SlotCases)
  {
    forall m | m in ms ensures Apply(PairTruths(protocol)(m), PublicOf) == SlotCases(m) {
      PublicPair(protocol, m);
    }
    ApplyFlat(ms, PairTruths(protocol), PublicOf, SlotCases);
  }

  lemma SortKeeps<T>(le: (T, T) -> bool, s: seq<T>, x: T)
    ensures x in Sort(le, s) <==> x in s
  {
    SameMultiset(s, Sort(le, s));
    assert x in Elements(s) <==> x in Elements(Sort(le, s));
  }

  /** Where an authored case comes from. */
  lemma TruthFrom(protocol: Protocol, ms: seq<PairMaterial>, c: TruthCase) returns (i: nat, s: Slot)
    requires c in Flat(ms, PairTruths(protocol))
    ensures i < |ms| && s in SIX_SLOTS && c == TruthAt(protocol, ms[i])(s)
  {
    i := PartOf(ms, PairTruths(protocol), c);
    s := SlotOfTruth(protocol, ms[i], c);
  }

  lemma PartOf<S, T>(s: seq<S>, part: S -> seq<T>, x: T) returns (i: nat)
    requires x in Flat(s, part)
    ensures i < |s| && x in part(s[i])
  {
    FlatMembers(s, part, x);
    var m :| m in s && x in part(m);
    i :| 0 <= i < |s| && s[i] == m;
  }

  lemma SlotOfTruth(protocol: Protocol, m: PairMaterial, c: TruthCase) returns (s: Slot)
    requires c in PairTruths(protocol)(m)
    ensures s in SIX_SLOTS && c == TruthAt(protocol, m)(s)
  {
    s := ImageOf(SIX_SLOTS, TruthAt(protocol, m), c);
  }

  lemma ImageOf<S, T>(s: seq<S>, f: S -> T, y: T) returns (x: S)
    requires y in Apply(s, f)
    ensures x in s && f(x) == y
  {
    var k :| 0 <= k < |s| && Apply(s, f)[k] == y;
    x := s[k];
  }

  lemma TruthKeyIsCaseKey(protocol: Protocol, m: PairMaterial, s: Slot)
    ensures TruthKey(TruthAt(protocol, m)(s)) == CaseKey(protocol)(PublicOf(TruthAt(protocol, m)(s)))
  {
    TruthIsPublic(protocol, m, s);
  }

  lemma SameKeysSameOrder<S, T>(key: S -> Key, key': T -> Key, f: S -> T, s: seq<S>)
    requires forall x :: x in s ==> key(x) == key'(f(x))
    ensures SameOrder(ByKey(key), ByKey(key'), f, s)
  {
  }

  lemma SameTruthOrder(protocol: Protocol, ms: seq<PairMaterial>)
    ensures SameOrder(ByKey(TruthKey), ByKey(CaseKey(protocol)), PublicOf, Flat(ms, PairTruths(protocol)))
  {
    var listed := Flat(ms, PairTruths(protocol));
    var key := CaseKey(protocol);
    forall c | c in listed ensures TruthKey(c) == key(PublicOf(c)) {
      var i, s := TruthFrom(protocol, ms, c);
      TruthKeyIsCaseKey(protocol, ms[i], s);
    }
    SameKeysSameOrder(TruthKey, key, PublicOf, listed);
  }

  /** The public cases of the truth, in its order, are the projected cases. */
  lemma TruthKeepsCases(protocol: Protocol, ms: seq<PairMaterial>)
    requires protocol.Binding() && Regular(ms)
    ensures Apply(TruthFor(protocol, ms).cases, PublicOf) == ViewsOf(protocol, ms).cases
  {
    var truths := Flat(ms, PairTruths(protocol));
    SameTruthOrder(protocol, ms);
    SortApply(ByKey(TruthKey), ByKey(CaseKey(protocol)), PublicOf, truths);
    PublicTruths(protocol, ms);
    ProjectedCases(ms);
  }

  // ---------- the assignments are those of the projection ----------

  lemma FlatOfThree<S, T>(a: S, b: S, c: S, part: S -> seq<T>)
    ensures Flat([a, b, c], part) == part(a) + part(b) + part(c)
  {
    FlatMore([], a, part);
    FlatMore([a], b, part);
    FlatMore([a, b], c, part);
    assert [] + [a] == [a] && [a] + [b] == [a, b] && [a, b] + [c] == [a, b, c];
  }

  lemma FlatOfSix<S, T>(a: S, b: S, c: S, d: S, e: S, f: S, part: S -> seq<T>)
    ensures Flat([a, b, c, d, e, f], part) == part(a) + part(b) + part(c) + part(d) + part(e) + part(f)
  {
    FlatOfThree(a, b, c, part);
    FlatOfThree(d, e, f, part);
    FlatConcatenation([a, b, c], [d, e, f], part);
    assert [a, b, c] + [d, e, f] == [a, b, c, d, e, f];
  }

  lemma SideIsAssigned(protocol: Protocol, m: PairMaterial, s: Slot, left: bool)
    requires SoundSides(m) && Shots(m)(left, s.1) == Shots(m)(s.0, s.1)
    ensures AssignmentOf(TruthAt(protocol, m)(s))(SideOf(m, left).episodeId)
      == ShotAssignment(protocol, m, Shots(m), left)(s.1)
  {
  }

  lemma SlotEpisodes(protocol: Protocol, m: PairMaterial, s: Slot)
    ensures TruthAt(protocol, m)(s).assignmentEpisodeIds
      == if Neutral(s.1) then [m.left.episodeId, m.right.episodeId] else [SideOf(m, s.0).episodeId]
  {
  }

  /** The truth of a slot gives back the assignments `l` and `r` of its view. */
  ghost predicate GivesBack(c: TruthCase, s: Slot, l: ViewKind -> Assignment, r: ViewKind -> Assignment) {
    CaseAssignments(c) == if Neutral(s.1) then [l(s.1), r(s.1)] else [if s.0 then l(s.1) else r(s.1)]
  }

  lemma SlotAssignments(protocol: Protocol, m: PairMaterial, s: Slot)
    requires TwinShots(Shots(m), m.manifest) && SoundSides(m)
    ensures GivesBack(
      TruthAt(protocol, m)(s), s,
      ShotAssignment(protocol, m, Shots(m), true), ShotAssignment(protocol, m, Shots(m), false))
  {
    var shown := Shots(m);
    var c := TruthAt(protocol, m)(s);
    SlotEpisodes(protocol, m, s);
    if Neutral(s.1) {
      assert shown(true, s.1) == shown(s.0, s.1) && shown(false, s.1) == shown(s.0, s.1);
      SideIsAssigned(protocol, m, s, true);
      SideIsAssigned(protocol, m, s, false);
      ApplyPair(m.left.episodeId, m.right.episodeId, AssignmentOf(c));
    } else {
      SideIsAssigned(protocol, m, s, s.0);
      ApplyOne(SideOf(m, s.0).episodeId, AssignmentOf(c));
    }
  }

  lemma ApplyOne<S, T>(x: S, f: S -> T)
    ensures Apply([x], f) == [f(x)]
  {
  }

  lemma Shuffle<T>(
      a: multiset<T>, b: multiset<T>, c: multiset<T>, d: multiset<T>,
      e: multiset<T>, f: multiset<T>, g: multiset<T>, h: multiset<T>)
    ensures (a + e) + (b + f) + c + d + g + h == (a + b + c + d) + (e + f + g + h)
  {
  }

  lemma Interleaved<T>(
      a: seq<T>, b: seq<T>, c: seq<T>, d: seq<T>, e: seq<T>, f: seq<T>, g: seq<T>, h: seq<T>)
    ensures multiset((a + e) + (b + f) + c + d + g + h) == multiset((a + b + c + d) + (e + f + g + h))
  {
    Shuffle(multiset(a), multiset(b), multiset(c), multiset(d), multiset(e), multiset(f), multiset(g), multiset(h));
  }

  lemma SameEight<T>(a: T, b: T, c: T, d: T, e: T, f: T, g: T, h: T)
    ensures multiset([a, e] + [b, f] + [c] + [d] + [g] + [h]) == multiset([a, b, c, d] + [e, f, g, h])
  {
    assert [a, e] == [a] + [e] && [b, f] == [b] + [f];
    FourIn(a, b, c, d);
    FourIn(e, f, g, h);
    Interleaved([a], [b], [c], [d], [e], [f], [g], [h]);
  }

  lemma FourIn<T>(a: T, b: T, c: T, d: T)
    ensures [a, b, c, d] == [a] + [b] + [c] + [d]
  {
  }

  lemma SixOf<T>(f: Slot -> T)
    ensures Apply(SIX_SLOTS, f) == [
      f((true, TraceOnly)), f((true, OwnerProbe)), f((true, EpochProbe)), f((true, RefreshReceipt)),
      f((false, EpochProbe)), f((false, RefreshReceipt))]
  {
  }

  lemma SixGiveBackEight(f: Slot -> TruthCase, l: ViewKind -> Assignment, r: ViewKind -> Assignment)
    requires forall s: Slot :: GivesBack(f(s), s, l, r)
    ensures multiset(Flat(Apply(SIX_SLOTS, f), CaseAssignments))
      == multiset(Apply(VIEW_ORDER, l) + Apply(VIEW_ORDER, r))
  {
    SixOf(f);
    FlatOfSix(f((true, TraceOnly)), f((true, OwnerProbe)), f((true, EpochProbe)), f((true, RefreshReceipt)),
              f((false, EpochProbe)), f((false, RefreshReceipt)), CaseAssignments);
    SlotsGiveBack(f, l, r);
    FourViews(l);
    FourViews(r);
    SameEight(l(TraceOnly), l(OwnerProbe), l(EpochProbe), l(RefreshReceipt),
              r(TraceOnly), r(OwnerProbe), r(EpochProbe), r(RefreshReceipt));
  }

  lemma SlotsGiveBack(f: Slot -> TruthCase, l: ViewKind -> Assignment, r: ViewKind -> Assignment)
    requires forall s: Slot :: GivesBack(f(s), s, l, r)
    ensures CaseAssignments(f((true, TraceOnly))) == [l(TraceOnly), r(TraceOnly)]
    ensures CaseAssignments(f((true, OwnerProbe))) == [l(OwnerProbe), r(OwnerProbe)]
    ensures CaseAssignments(f((true, EpochProbe))) == [l(EpochProbe)]
    ensures CaseAssignments(f((true, RefreshReceipt))) == [l(RefreshReceipt)]
    ensures CaseAssignments(f((false, EpochProbe))) == [r(EpochProbe)]
    ensures CaseAssignments(f((false, RefreshReceipt))) == [r(RefreshReceipt)]
  {
    assert GivesBack(f((true, TraceOnly)), (true, TraceOnly), l, r);
    assert GivesBack(f((true, OwnerProbe)), (true, OwnerProbe), l, r);
    assert GivesBack(f((true, EpochProbe)), (true, EpochProbe), l, r);
    assert GivesBack(f((true, RefreshReceipt)), (true, RefreshReceipt), l, r);
    assert GivesBack(f((false, EpochProbe)), (false, EpochProbe), l, r);
    assert GivesBack(f((false, RefreshReceipt)), (false, RefreshReceipt), l, r);
  }

  lemma PairIsRebuilt(protocol: Protocol, m: PairMaterial)
    requires TwinShots(Shots(m), m.manifest) && SoundSides(m)
    ensures multiset(Flat(PairTruths(protocol)(m), CaseAssignments)) == multiset(PairAssignments(protocol)(m))
  {
    var f := TruthAt(protocol, m);
    var l, r := ShotAssignment(protocol, m, Shots(m), true), ShotAssignment(protocol, m, Shots(m), false);
    forall s: Slot ensures GivesBack(f(s), s, l, r) {
      SlotAssignments(protocol, m, s);
    }
    SixGiveBackEight(f, l, r);
  }

  lemma SameAssignmentKey(a: Assignment, b: Assignment)
    requires ByKey(AssignmentKey)(a, b) && ByKey(AssignmentKey)(b, a) && (a.pairId == b.pairId ==> a.split == b.split)
    ensures a == b
  {
    SameKey(AssignmentKey(a), AssignmentKey(b));
    assert AssignmentKey(a).names[0] == a.taskId && AssignmentKey(b).names[0] == b.taskId;
    assert AssignmentKey(a).names[1] == a.pairId && AssignmentKey(b).names[1] == b.pairId;
    assert AssignmentKey(a).names[2] == a.episodeId && AssignmentKey(b).names[2] == b.episodeId;
  }

  lemma AssignmentKeysSeparate(protocol: Protocol, ms: seq<PairMaterial>)
    requires Regular(ms)
    ensures Separates(ByKey(AssignmentKey), Flat(ms, PairAssignments(protocol)))
  {
    var listed, le := Flat(ms, PairAssignments(protocol)), ByKey(AssignmentKey);
    forall i, j | 0 <= i < |listed| && 0 <= j < |listed| && le(listed[i], listed[j]) && le(listed[j], listed[i])
      ensures listed[i] == listed[j]
    {
      PairFixesSplit(protocol, ms, listed[i], listed[j]);
      SameAssignmentKey(listed[i], listed[j]);
    }
  }

  lemma PairFixesSplit(protocol: Protocol, ms: seq<PairMaterial>, a: Assignment, b: Assignment)
    requires Regular(ms) && a in Flat(ms, PairAssignments(protocol)) && b in Flat(ms, PairAssignments(protocol))
    ensures a.pairId == b.pairId ==> a.split == b.split
  {
    var i, left, v := AssignmentFrom(protocol, ms, a);
    var j, left', v' := AssignmentFrom(protocol, ms, b);
    if i != j {
      assert Apart(ms[i], ms[j]);
    }
  }

  lemma SortRebuilt<R, S, T(!new)>(
      le: (T, T) -> bool, rs: seq<R>, outer: R -> seq<S>, inner: S -> seq<T>, both: R -> seq<T>, found: seq<S>)
    requires PreOrder(le) && Separates(le, Flat(rs, both)) && multiset(found) == multiset(Flat(rs, outer))
    requires forall r :: r in rs ==> multiset(Flat(outer(r), inner)) == multiset(both(r))
    ensures Sort(le, Flat(found, inner)) == Sort(le, Flat(rs, both))
  {
    FlatTwice(rs, outer, inner, both);
    FlatPermutation(found, Flat(rs, outer), inner);
    SortOfPermutation(le, Flat(rs, both), Flat(found, inner));
  }

  lemma EachIsRebuilt(protocol: Protocol, ms: seq<PairMaterial>)
    requires Regular(ms)
    ensures forall m :: m in ms ==>
      multiset(Flat(PairTruths(protocol)(m), CaseAssignments)) == multiset(PairAssignments(protocol)(m))
  {
    forall m | m in ms
      ensures multiset(Flat(PairTruths(protocol)(m), CaseAssignments)) == multiset(PairAssignments(protocol)(m))
    {
      var i :| 0 <= i < |ms| && ms[i] == m;
      PairIsRebuilt(protocol, ms[i]);
    }
  }

  /** Rebuilding the assignments from the truth gives the projected ones. */
  lemma TruthKeepsAssignments(protocol: Protocol, ms: seq<PairMaterial>)
    requires Regular(ms)
    ensures Reconstructed(TruthFor(protocol, ms)).assignments == ViewsOf(protocol, ms).assignments
  {
    EachIsRebuilt(protocol, ms);
    AssignmentKeysSeparate(protocol, ms);
    ByKeyIsOrdered(AssignmentKey);
    SortRebuilt(ByKey(AssignmentKey), ms, PairTruths(protocol), CaseAssignments, PairAssignments(protocol),
                TruthFor(protocol, ms).cases);
  }

  /** The truth rebuilds exactly the views that it was authored for. */
  lemma TruthBindsProjection(protocol: Protocol, ms: seq<PairMaterial>)
    requires protocol.Binding() && Regular(ms)
    ensures BindsProjection(TruthFor(protocol, ms))
  {
    TruthKeepsCases(protocol, ms);
    TruthKeepsAssignments(protocol, ms);
  }

  lemma TruthIsOrdered(protocol: Protocol, materials: seq<PairMaterial>)
    requires forall m :: m in materials ==> m.taskId == m.manifest.taskId
    ensures TruthOrder(TruthFor(protocol, Sort(ByKey(MaterialKey), materials)))
  {
    var ordered := Sort(ByKey(MaterialKey), materials);
    RoutesAreOrdered(protocol, materials);
    ByKeyIsOrdered(TruthKey);
    SortSorts(ByKey(TruthKey), Flat(ordered, PairTruths(protocol)));
    SortFixesSorted(ByKey(TruthKey), TruthFor(protocol, ordered).cases);
  }

  // ---------- routes and cases are valid ----------

  lemma DigestsDiffer(protocol: Protocol, m: PairMaterial, left: bool, i: nat, j: nat)
    requires protocol.Binding() && TwinShots(Shots(m), m.manifest) && i < j < |VIEW_ORDER|
    ensures SideRoute(protocol, m, left).digests[i].1 != SideRoute(protocol, m, left).digests[j].1
  {
    var shown := Shots(m);
    assert shown(left, VIEW_ORDER[i]) != shown(left, VIEW_ORDER[j]);
  }

  lemma SourceIsValid(protocol: Protocol, m: PairMaterial, left: bool)
    requires protocol.Binding() && TwinShots(Shots(m), m.manifest)
    requires SideOf(m, left).episodeId == protocol.ids.episodeId(SideOf(m, left).commitment)
    ensures ValidSource(protocol, SideRoute(protocol, m, left))
  {
    forall i, j | 0 <= i < j < |VIEW_ORDER|
      ensures SideRoute(protocol, m, left).digests[i].1 != SideRoute(protocol, m, left).digests[j].1
    {
      DigestsDiffer(protocol, m, left, i, j);
    }
  }

  lemma RouteNames(protocol: Protocol, m: PairMaterial)
    ensures var route := RouteFor(protocol)(m);
      && route.pairId == m.pairId && route.templateId == m.templateId && route.split == m.split
      && route.manifest == m.manifest
      && route.left == SideRoute(protocol, m, true) && route.right == SideRoute(protocol, m, false)
      && route.left.episodeId == m.left.episodeId && route.right.episodeId == m.right.episodeId
      && route.left.commitment == m.left.commitment && route.right.commitment == m.right.commitment
      && route.left.snapshot == m.left.snapshot && route.right.snapshot == m.right.snapshot
  {
  }

  lemma RouteIsValid(protocol: Protocol, m: PairMaterial)
    requires protocol.Binding() && GoodTwins(m, protocol) && Unrelated(m.left, m.right)
    ensures ValidRoute(protocol, RouteFor(protocol)(m))
  {
    GoodTwinsShow(protocol, m);
    SourceIsValid(protocol, m, true);
    SourceIsValid(protocol, m, false);
    RouteNames(protocol, m);
  }

  lemma RoutesAreUnrelated(protocol: Protocol, a: PairMaterial, b: PairMaterial)
    requires a.taskId == a.manifest.taskId && b.taskId == b.manifest.taskId
    requires Separate(a, b) && a.manifest != b.manifest
    ensures UnrelatedRoutes(RouteFor(protocol)(a), RouteFor(protocol)(b))
  {
    RouteNames(protocol, a);
    RouteNames(protocol, b);
  }

  lemma GoodTwinsKeepTask(m: PairMaterial, protocol: Protocol)
    requires GoodTwins(m, protocol)
    ensures m.taskId == m.manifest.taskId
  {
  }

  lemma MembersAreUnrelated(protocol: Protocol, ms: seq<PairMaterial>, i: nat, j: nat)
    requires Admissible(Good(protocol), ms) && i < j < |ms|
    ensures UnrelatedRoutes(RouteFor(protocol)(ms[i]), RouteFor(protocol)(ms[j]))
  {
    AdmissibleMeans(Good(protocol), ms);
    AdmittedRegistriesDiffer(protocol, ms);
    MemberIsGood(Good(protocol), ms, i);
    MemberIsGood(Good(protocol), ms, j);
    GoodTwinsKeepTask(ms[i], protocol);
    GoodTwinsKeepTask(ms[j], protocol);
    RoutesAreUnrelated(protocol, ms[i], ms[j]);
  }

  lemma MemberRouteIsValid(protocol: Protocol, ms: seq<PairMaterial>, i: nat)
    requires protocol.Binding() && Admissible(Good(protocol), ms) && i < |ms|
    ensures ValidRoute(protocol, RouteFor(protocol)(ms[i]))
  {
    AdmissibleMeans(Good(protocol), ms);
    MemberIsGood(Good(protocol), ms, i);
    RouteIsValid(protocol, ms[i]);
  }

  lemma RoutesAreValid(protocol: Protocol, ms: seq<PairMaterial>)
    requires protocol.Binding() && Admissible(Good(protocol), ms)
    ensures ValidRoutes(protocol, Apply(ms, RouteFor(protocol)))
  {
    var f := RouteFor(protocol);
    forall i | 0 <= i < |ms| ensures ValidRoute(protocol, f(ms[i])) {
      MemberRouteIsValid(protocol, ms, i);
    }
    forall i, j | 0 <= i < j < |ms| ensures UnrelatedRoutes(f(ms[i]), f(ms[j])) {
      MembersAreUnrelated(protocol, ms, i, j);
    }
  }

  lemma TruthIsRoutedTo(protocol: Protocol, ms: seq<PairMaterial>, i: nat, s: Slot)
    requires SoundMaterials(protocol, ms) && i < |ms|
    ensures RoutedTruth(protocol, Apply(ms, RouteFor(protocol)), TruthAt(protocol, ms[i])(s))
  {
    var c := TruthAt(protocol, ms[i])(s);
    TruthIsSound(protocol, ms[i], protocol.templates(ms[i].templateId), s);
    RoutedBySome(protocol, Apply(ms, RouteFor(protocol)), c, RouteFor(protocol)(ms[i]), i);
  }

  lemma RoutedBySome(protocol: Protocol, routes: seq<PairRoute>, c: TruthCase, route: PairRoute, i: nat)
    requires i < |routes| && routes[i] == route && ValidTruthCase(protocol, c) && ValidRoutedCase(protocol, c, route)
    ensures RoutedTruth(protocol, routes, c)
  {
  }

  lemma CasesAreValid(protocol: Protocol, ms: seq<PairMaterial>)
    requires SoundMaterials(protocol, ms)
    ensures ValidCases(protocol, TruthFor(protocol, ms))
  {
    forall c | c in TruthFor(protocol, ms).cases ensures RoutedTruth(protocol, Apply(ms, RouteFor(protocol)), c) {
      SortKeeps(ByKey(TruthKey), Flat(ms, PairTruths(protocol)), c);
      var i, s := TruthFrom(protocol, ms, c);
      TruthIsRoutedTo(protocol, ms, i, s);
    }
  }

  // ---------- the order in which cases are authored does not matter ----------

  lemma PairsShowDifferently(ms: seq<PairMaterial>, i: nat, s: Slot, j: nat, s': Slot)
    requires Regular(ms) && i < |ms| && j < |ms| && i != j
    ensures SlotEvidence(ms[i])(s) != SlotEvidence(ms[j])(s')
  {
    EvidenceRegistry(ms[i], s);
    EvidenceRegistry(ms[j], s');
    assert Apart(ms[i], ms[j]);
  }

  lemma SameSlot(ms: seq<PairMaterial>, i: nat, s: Slot, j: nat, s': Slot)
    requires Regular(ms) && i < |ms| && j < |ms| && s in SIX_SLOTS && s' in SIX_SLOTS
    requires SlotEvidence(ms[i])(s) == SlotEvidence(ms[j])(s')
    ensures i == j && s == s'
  {
    if i != j {
      PairsShowDifferently(ms, i, s, j, s');
    }
    SlotsAreHomes(s);
    SlotsAreHomes(s');
    if s != s' {
      SlotsShowDifferently(ms[i], s, s');
    }
  }

  lemma EvidenceRegistry(m: PairMaterial, s: Slot)
    requires TwinShots(Shots(m), m.manifest)
    ensures SlotEvidence(m)(s).registry == m.manifest
  {
    var shown := Shots(m);
    assert shown(s.0, s.1).registry == m.manifest;
  }

  lemma SameTruthKey(protocol: Protocol, ms: seq<PairMaterial>, a: TruthCase, b: TruthCase)
    requires protocol.Binding() && Regular(ms)
    requires a in Flat(ms, PairTruths(protocol)) && b in Flat(ms, PairTruths(protocol)) && a.digest == b.digest
    ensures a == b
  {
    var i, s := TruthFrom(protocol, ms, a);
    var j, s' := TruthFrom(protocol, ms, b);
    TruthIsPublic(protocol, ms[i], s);
    TruthIsPublic(protocol, ms[j], s');
    SlotShows(ms[i], s);
    SlotShows(ms[j], s');
    SameSlot(ms, i, s, j, s');
  }

  lemma TruthKeysSeparate(protocol: Protocol, ms: seq<PairMaterial>)
    requires protocol.Binding() && Regular(ms)
    ensures Separates(ByKey(TruthKey), Flat(ms, PairTruths(protocol)))
  {
    var truths, le := Flat(ms, PairTruths(protocol)), ByKey(TruthKey);
    forall i, j | 0 <= i < |truths| && 0 <= j < |truths| && le(truths[i], truths[j]) && le(truths[j], truths[i])
      ensures truths[i] == truths[j]
    {
      SameKey(TruthKey(truths[i]), TruthKey(truths[j]));
      SameTruthKey(protocol, ms, truths[i], truths[j]);
    }
  }

  lemma RouteTruthsRearranged(protocol: Protocol, ms: seq<PairMaterial>)
    ensures multiset(Flat(ms, RouteTruths(protocol))) == multiset(Flat(ms, PairTruths(protocol)))
  {
    forall m | m in ms ensures multiset(RouteTruths(protocol)(m)) == multiset(PairTruths(protocol)(m)) {
      ApplyPermutation(SlotOrder(protocol, m), SIX_SLOTS, TruthAt(protocol, m));
    }
    FlatRearranged(ms, RouteTruths(protocol), PairTruths(protocol));
  }

  /** However the cases of each pair are arranged, sorting them all gives the truth. */
  lemma AuthoredOrder(protocol: Protocol, ms: seq<PairMaterial>)
    requires protocol.Binding() && Regular(ms)
    ensures Sort(ByKey(TruthKey), Flat(ms, RouteTruths(protocol))) == TruthFor(protocol, ms).cases
  {
    RouteTruthsRearranged(protocol, ms);
    TruthKeysSeparate(protocol, ms);
    ByKeyIsOrdered(TruthKey);
    SortOfPermutation(ByKey(TruthKey), Flat(ms, PairTruths(protocol)), Flat(ms, RouteTruths(protocol)));
  }
}
