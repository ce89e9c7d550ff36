/** Authoring the private truth of one pair inside a projection of many: from
    two decoded twins to six validated truth cases
    (src/witnessgap/workspace100/truth.py:345-452). */
module Authoring {
  import opened Model
  import opened Order
  import opened Permutations
  import opened Panels
  import opened Attribution
  import opened Verifier
  import opened Certificates
  import opened Batch
  import opened Records
  import opened Runtime
  import opened Views
  import opened Projection
  import opened Projector
  import opened Routing
  import opened Routes
  import opened RouteCases
  import opened Twins
  import opened Materials
  import opened Verdicts
  import opened Truth

  // ---------- the verifier's view of two twins ----------

  function TwinSources(l: Workspace100World, r: Workspace100World): seq<Source> {
    [SourceOf(l), SourceOf(r)]
  }

  lemma TwinSourcesOrdered(l: Workspace100World, r: Workspace100World)
    requires AreTwins(l, r)
    ensures Ordered(TwinSources(l, r)) == TwinSources(l, r)
  {
    SortOfPair(CommitmentOrder(), SourceOf(l), SourceOf(r));
  }

  lemma TableHolds(names: seq<string>, w: Workspace100World, n: string)
    requires n in names && w.Probe(n).Some?
    ensures var table := ProbeTableOf(Apply(names, ProbeValue(w))); n in table && table[n] == w.Probe(n).value
  {
    var probes := Apply(names, ProbeValue(w));
    FirstProbeReads(names, w, n);
    assert ProbeObservation(n, w.Probe(n).value) in probes;
  }

  lemma TableNames(names: seq<string>, w: Workspace100World, n: string)
    requires n in ProbeTableOf(Apply(names, ProbeValue(w)))
    ensures n in names
  {
    var probes := Apply(names, ProbeValue(w));
    var p :| p in probes && p.name == n;
    var i :| 0 <= i < |probes| && probes[i] == p;
    assert p.name == names[i];
  }

  lemma SideTable(w: Workspace100World, names: seq<string>)
    requires forall n :: n in names ==> w.Probe(n).Some?
    ensures ProbeTableOf(Apply(names, ProbeValue(w)))
      == map n | n in names && SourceOf(w).probe(n, 0).Some? :: SourceOf(w).probe(n, 0).value
  {
    var table := ProbeTableOf(Apply(names, ProbeValue(w)));
    forall n | n in names ensures n in table && table[n] == w.Probe(n).value {
      TableHolds(names, w, n);
    }
    forall n | n in table ensures n in names {
      TableNames(names, w, n);
    }
  }

  lemma SideCompletion(w: Workspace100World, manifest: Manifest, protocol: Protocol)
    requires manifest.atoms == w.Atoms() && manifest.probeNames == w.ProbeNames()
    ensures CompletionOf(manifest)(SourceOf(w)) == AsCompletion(VerifiedSide(w, protocol))
  {
    forall n | n in w.ProbeNames() ensures w.Probe(n).Some? {
      DeclaredProbesAnswer(w, n);
    }
    SideTable(w, w.ProbeNames());
  }

  /** The verifier and the view builder see the same two completions. */
  lemma TwinsAsFamily(l: Workspace100World, r: Workspace100World, protocol: Protocol)
    requires AreTwins(l, r)
    ensures Family(ManifestFor(l, r), TwinSources(l, r)) == TwinFamily(MaterialFor(l, r, protocol))
  {
    var manifest := ManifestFor(l, r);
    TwinSourcesOrdered(l, r);
    TwinsShareDeclaration(l, r);
    ApplyPair(SourceOf(l), SourceOf(r), CompletionOf(manifest));
    SideCompletion(l, manifest, protocol);
    SideCompletion(r, manifest, protocol);
  }

  lemma SideAccepted(w: Workspace100World, manifest: Manifest)
    requires w.Valid() && w.Runnable() && manifest.atoms == w.Atoms() && manifest.stateChannels == w.StateChannels()
    ensures PanelAccepted(SourceOf(w), manifest.atoms, manifest.stateChannels)
  {
    RunnableIsAccepted(w);
  }

  lemma PairAccepted(a: Source, b: Source, manifest: Manifest)
    requires manifest.Valid()
    requires PanelAccepted(a, manifest.atoms, manifest.stateChannels)
    requires PanelAccepted(b, manifest.atoms, manifest.stateChannels)
    requires Ordered([a, b]) == [a, b] && manifest.candidateCommitments == [a.commitment, b.commitment]
    ensures SourcesAccepted(manifest, manifest, [a, b])
  {
    ApplyPair(a, b, SourceCommitment);
  }

  lemma TwinSourcesAccepted(l: Workspace100World, r: Workspace100World)
    requires AreTwins(l, r) && l.Declarable()
    ensures SourcesAccepted(ManifestFor(l, r), ManifestFor(l, r), TwinSources(l, r))
  {
    ManifestIsValid(l, r);
    TwinSourcesOrdered(l, r);
    TwinsShareDeclaration(l, r);
    SideAccepted(l, ManifestFor(l, r));
    SideAccepted(r, ManifestFor(l, r));
    PairAccepted(SourceOf(l), SourceOf(r), ManifestFor(l, r));
  }

  lemma ShownIsBound(m: PairMaterial, t: TemplateRecord, c: VerifiedCompletion, view: ViewKind, e: Evidence)
    requires Shown(m, t, c, view, e)
    requires t.refreshAtom in AtomNames(m.manifest.atoms)
    requires OWNER_PROBE in m.manifest.probeNames && t.epochProbe in m.manifest.probeNames
    ensures Bound(m.manifest, e)
  {
  }

  lemma DeclaredNames(t: TemplateRecord)
    requires t.refreshAtom != t.repairAtom
    ensures t.refreshAtom in AtomNames(TemplateAtoms(t))
    ensures OWNER_PROBE in TemplateProbes(t) && t.epochProbe in TemplateProbes(t)
  {
    TemplateTargets(t);
    assert t.refreshAtom in Elements(AtomNames(TemplateAtoms(t)));
    SortedPairIsStrict(t.epochProbe, OWNER_PROBE);
    assert OWNER_PROBE in Elements(TemplateProbes(t)) && t.epochProbe in Elements(TemplateProbes(t));
  }

  lemma ShotIsShown(m: PairMaterial, t: TemplateRecord, left: bool, view: ViewKind)
    requires TwinFacts(m, t)
    ensures ProjectEvidence(m, SideOf(m, left), view) == Some(Shots(m)(left, view))
    ensures Shown(m, t, SideOf(m, left), view, Shots(m)(left, view))
  {
    ProjectionShows(m, t, SideOf(m, left), view);
    ShotIsProjected(m, left, view);
  }

  lemma ShotIsBound(m: PairMaterial, t: TemplateRecord, left: bool, view: ViewKind)
    requires TwinFacts(m, t) && m.manifest.atoms == TemplateAtoms(t) && m.manifest.probeNames == TemplateProbes(t)
    ensures Bound(m.manifest, Shots(m)(left, view))
  {
    ShotIsShown(m, t, left, view);
    DeclaredNames(t);
    ShownIsBound(m, t, SideOf(m, left), view, Shots(m)(left, view));
  }

  lemma ProbesReproducePair(a: Source, b: Source, name: string)
    requires ProbeReproduces(a, name) && ProbeReproduces(b, name)
    ensures forall s :: s in [a, b] ==> ProbeReproduces(s, name)
  {
  }

  lemma TwinProbesReproduce(l: Workspace100World, r: Workspace100World, name: string)
    requires AreTwins(l, r) && name in l.ProbeNames()
    ensures forall s :: s in TwinSources(l, r) ==> ProbeReproduces(s, name)
  {
    TwinsShareDeclaration(l, r);
    DeclaredProbesAnswer(l, name);
    DeclaredProbesAnswer(r, name);
    ProbesReproducePair(SourceOf(l), SourceOf(r), name);
  }

  lemma BoundProbesReproduce(l: Workspace100World, r: Workspace100World, e: Evidence)
    requires AreTwins(l, r) && Bound(ManifestFor(l, r), e)
    ensures ProbesReproduce(TwinSources(l, r), e)
  {
    forall s, p | s in TwinSources(l, r) && p in e.probes ensures ProbeReproduces(s, p.name) {
      TwinProbesReproduce(l, r, p.name);
    }
  }

  ghost predicate Ready(l: Workspace100World, r: Workspace100World, protocol: Protocol) {
    && DeclaredTwins(l, r)
    && protocol.Binding() && protocol.templates(l.record.templateId) == l.template
    && protocol.ids.episodeId(l.commitment) != protocol.ids.episodeId(r.commitment)
  }

  lemma ShotIsAccepted(l: Workspace100World, r: Workspace100World, protocol: Protocol, left: bool, view: ViewKind)
    requires Ready(l, r, protocol) && TwinFacts(MaterialFor(l, r, protocol), l.template)
    ensures var m := MaterialFor(l, r, protocol);
      Bound(m.manifest, Shots(m)(left, view)) && ProbesReproduce(TwinSources(l, r), Shots(m)(left, view))
  {
    var m := MaterialFor(l, r, protocol);
    ShotIsBound(m, l.template, left, view);
    BoundProbesReproduce(l, r, Shots(m)(left, view));
  }

  lemma ShotIsJudgedFor(m: PairMaterial, t: TemplateRecord, sources: seq<Source>, left: bool, view: ViewKind)
    requires TwinFacts(m, t) && Family(m.manifest, sources) == TwinFamily(m)
    ensures var judged := Judgement(m.manifest, sources, Shots(m)(left, view));
      judged.Some? && EarnedBy(m, left, view, judged.value) && judged.value.evidence == Shots(m)(left, view)
  {
    ShotIsShown(m, t, left, view);
    ViewVerdict(m, t, sources, left, view);
  }

  lemma ShotIsJudged(l: Workspace100World, r: Workspace100World, protocol: Protocol, left: bool, view: ViewKind)
    requires Ready(l, r, protocol) && TwinFacts(MaterialFor(l, r, protocol), l.template)
    ensures var m := MaterialFor(l, r, protocol);
      var judged := Judgement(m.manifest, TwinSources(l, r), Shots(m)(left, view));
      judged.Some? && EarnedBy(m, left, view, judged.value) && judged.value.evidence == Shots(m)(left, view)
  {
    TwinsAsFamily(l, r, protocol);
    ShotIsJudgedFor(MaterialFor(l, r, protocol), l.template, TwinSources(l, r), left, view);
  }

  /** Each view's evidence is accepted by the verifier and earns its verdict. */
  lemma ShotEarns(l: Workspace100World, r: Workspace100World, protocol: Protocol, left: bool, view: ViewKind)
    requires Ready(l, r, protocol)
    ensures var m := MaterialFor(l, r, protocol);
      var e := Shots(m)(left, view);
      && EvidenceAccepted(m.manifest, TwinSources(l, r), e)
      && EarnedBy(m, left, view, Judgement(m.manifest, TwinSources(l, r), e).value)
      && Judgement(m.manifest, TwinSources(l, r), e).value.evidence == e
  {
    TwinsYieldGoodMaterial(l, r, protocol);
    ShotIsAccepted(l, r, protocol, left, view);
    ShotIsJudged(l, r, protocol, left, view);
  }

  // ---------- which episodes a case is assigned to ----------

  function IndexOrder(route: PairRoute): (string, string) -> bool {
    (a: string, b: string) => a == route.left.episodeId || b != route.left.episodeId
  }

  /** `_assignments_by_evidence`: the episodes of one digest, in route order. */
  function AssignedEpisodes(assignments: seq<Assignment>, route: PairRoute, digest: string): seq<string> {
    Sort(IndexOrder(route), Apply(Filter(assignments, WithDigest(digest)), (a: Assignment) => a.episodeId))
  }

  lemma TwoEpisodes(route: PairRoute, found: seq<string>)
    requires |found| == 2 && route.left.episodeId in found && route.right.episodeId in found
    requires route.left.episodeId != route.right.episodeId
    ensures Sort(IndexOrder(route), found) == [route.left.episodeId, route.right.episodeId]
  {
    assert found == [found[0], found[1]];
    SortOfPair(IndexOrder(route), found[0], found[1]);
  }

  lemma OneEpisode(route: PairRoute, found: seq<string>, e: string)
    requires |found| == 1 && e in found
    ensures Sort(IndexOrder(route), found) == [e]
  {
    assert found == [e] && found[1..] == [];
  }

  lemma AssignedContains(protocol: Protocol, ms: seq<PairMaterial>, i: nat, left: bool, view: ViewKind, digest: string)
    requires i < |ms| && digest == protocol.digest(Shots(ms[i])(left, view))
    ensures SideOf(ms[i], left).episodeId in Apply(
      Filter(ViewsOf(protocol, ms).assignments, WithDigest(digest)), (a: Assignment) => a.episodeId)
  {
    var a := ShotAssignment(protocol, ms[i], Shots(ms[i]), left)(view);
    AppliedViews(ShotAssignment(protocol, ms[i], Shots(ms[i]), left), a);
    FlatMembers(ms, PairAssignments(protocol), a);
    assert a in PairAssignments(protocol)(ms[i]) && ms[i] in ms;
    ViewsKeepAssignments(protocol, ms, WithDigest(digest));
    var matching := Filter(ViewsOf(protocol, ms).assignments, WithDigest(digest));
    assert a in matching;
    var k :| 0 <= k < |matching| && matching[k] == a;
    assert Apply(matching, (x: Assignment) => x.episodeId)[k] == a.episodeId;
  }

  /** In any projection the assignments of a case are the twins it came from. */
  lemma {:induction false} AssignedEpisodesAre(
      protocol: Protocol, ms: seq<PairMaterial>, i: nat, left: bool, view: ViewKind)
    requires protocol.Binding() && Regular(ms) && i < |ms|
    ensures AssignedEpisodes(
        ViewsOf(protocol, ms).assignments, RouteFor(protocol)(ms[i]), protocol.digest(Shots(ms[i])(left, view)))
      == if Neutral(view) then [ms[i].left.episodeId, ms[i].right.episodeId] else [SideOf(ms[i], left).episodeId]
  {
    var digest := protocol.digest(Shots(ms[i])(left, view));
    var route := RouteFor(protocol)(ms[i]);
    DigestCount(protocol, ms, i, left, view);
    ViewsKeepAssignments(protocol, ms, WithDigest(digest));
    AssignedContains(protocol, ms, i, left, view, digest);
    var found := Apply(Filter(ViewsOf(protocol, ms).assignments, WithDigest(digest)), (a: Assignment) => a.episodeId);
    assert SoundSides(ms[i]);
    if Neutral(view) {
      assert TwinShots(Shots(ms[i]), ms[i].manifest);
      assert Shots(ms[i])(left, view) == Shots(ms[i])(!left, view);
      AssignedContains(protocol, ms, i, !left, view, digest);
      TwoEpisodes(route, found);
    } else {
      OneEpisode(route, found, SideOf(ms[i], left).episodeId);
    }
  }

  // ---------- the route of a pair ----------

  /** The source behind one side of a route is the one that was authored. */
  predicate SameProvenance(w: Workspace100World, protocol: Protocol, side: CompletionRoute) {
    && side.episodeId == protocol.ids.episodeId(w.commitment)
    && side.commitment == w.commitment && side.snapshot == w.snapshot
  }

  /** `_author_truth_route`: the evidence route, if it is that of the authored pair. */
  function AuthorRoute(
    protocol: Protocol, l: Workspace100World, r: Workspace100World, route: PairRoute): Option<PairRoute>
  {
    if && route.pairId == protocol.ids.pairId((l.commitment, r.commitment))
       && route.manifest.taskId == l.record.taskId
       && route.templateId == l.record.templateId && route.split == l.template.split
       && SameProvenance(l, protocol, route.left) && SameProvenance(r, protocol, route.right)
    then Some(route) else None
  }

  lemma SideIsAuthored(w: Workspace100World, protocol: Protocol, m: PairMaterial, left: bool)
    requires SideOf(m, left) == VerifiedSide(w, protocol)
    ensures SameProvenance(w, protocol, SideRoute(protocol, m, left))
  {
  }

  lemma MatchingRouteIsAuthored(
      protocol: Protocol, l: Workspace100World, r: Workspace100World, m: PairMaterial, route: PairRoute)
    requires route == RouteFor(protocol)(m)
    requires m.pairId == protocol.ids.pairId((l.commitment, r.commitment)) && m.manifest.taskId == l.record.taskId
    requires m.templateId == l.record.templateId && m.split == l.template.split
    requires SameProvenance(l, protocol, SideRoute(protocol, m, true))
    requires SameProvenance(r, protocol, SideRoute(protocol, m, false))
    ensures AuthorRoute(protocol, l, r, route) == Some(route)
  {
  }

  lemma SidePanels(l: Workspace100World, r: Workspace100World, protocol: Protocol, m: PairMaterial)
    requires m.left == VerifiedSide(l, protocol) && m.right == VerifiedSide(r, protocol)
    ensures PanelsOf(m) == map[l.commitment := PanelFor(l), r.commitment := PanelFor(r)]
    ensures m.left.commitment == l.commitment && m.right.commitment == r.commitment
  {
  }

  /** The evidence route of a projected pair is accepted as its truth route. */
  lemma RouteIsAuthored(protocol: Protocol, l: Workspace100World, r: Workspace100World, m: PairMaterial)
    requires m == MaterialFor(l, r, protocol)
    ensures AuthorRoute(protocol, l, r, RouteFor(protocol)(m)) == Some(RouteFor(protocol)(m))
  {
    MaterialNames(l, r, protocol, m);
    SideIsAuthored(l, protocol, m, true);
    SideIsAuthored(r, protocol, m, false);
    MatchingRouteIsAuthored(protocol, l, r, m, RouteFor(protocol)(m));
  }

  // ---------- the certificates of a pair ----------

  lemma SlotAccepted(l: Workspace100World, r: Workspace100World, protocol: Protocol, s: Slot)
    requires Ready(l, r, protocol)
    ensures EvidenceAccepted(ManifestFor(l, r), TwinSources(l, r), SlotEvidence(MaterialFor(l, r, protocol))(s))
  {
    ShotEarns(l, r, protocol, s.0, s.1);
  }

  ghost predicate SlotsAccepted(manifest: Manifest, sources: seq<Source>, f: Slot -> Evidence) {
    forall s: Slot :: EvidenceAccepted(manifest, sources, f(s))
  }

  lemma BatchOfSlots(manifest: Manifest, sources: seq<Source>, slots: seq<Slot>, f: Slot -> Evidence)
    requires SourcesAccepted(manifest, manifest, sources) && SlotsAccepted(manifest, sources, f)
    requires 1 <= |slots| <= MAX_EVIDENCE_BATCH
    ensures BatchAccepted(manifest, manifest, sources, Apply(slots, f))
  {
    var evidences := Apply(slots, f);
    forall e | e in evidences ensures EvidenceAccepted(manifest, sources, e) {
      var i :| 0 <= i < |evidences| && evidences[i] == e;
      assert EvidenceAccepted(manifest, sources, f(slots[i]));
    }
  }

  lemma TwinSlotsAccepted(l: Workspace100World, r: Workspace100World, protocol: Protocol)
    requires Ready(l, r, protocol)
    ensures SlotsAccepted(ManifestFor(l, r), TwinSources(l, r), SlotEvidence(MaterialFor(l, r, protocol)))
  {
    forall s: Slot
      ensures EvidenceAccepted(ManifestFor(l, r), TwinSources(l, r), SlotEvidence(MaterialFor(l, r, protocol))(s))
    {
      SlotAccepted(l, r, protocol, s);
    }
  }

  /** The verifier accepts the evidence records of a pair in one batch. */
  lemma TwinBatchAccepted(l: Workspace100World, r: Workspace100World, protocol: Protocol, slots: seq<Slot>)
    requires Ready(l, r, protocol) && 1 <= |slots| <= MAX_EVIDENCE_BATCH
    ensures BatchAccepted(
      ManifestFor(l, r), ManifestFor(l, r), TwinSources(l, r),
      Apply(slots, SlotEvidence(MaterialFor(l, r, protocol))))
  {
    TwinSourcesAccepted(l, r);
    TwinSlotsAccepted(l, r, protocol);
    BatchOfSlots(ManifestFor(l, r), TwinSources(l, r), slots, SlotEvidence(MaterialFor(l, r, protocol)));
  }

  function CertificateAt(m: PairMaterial): Slot -> Certificate {
    (s: Slot) => CertificateOf(m, s.0, s.1)
  }

  /** The verifier judges the evidence of a slot exactly so. */
  lemma SlotIsJudged(l: Workspace100World, r: Workspace100World, protocol: Protocol, s: Slot)
    requires Ready(l, r, protocol)
    ensures var m := MaterialFor(l, r, protocol);
      JudgementOf(ManifestFor(l, r), TwinSources(l, r))(SlotEvidence(m)(s)) == Some(CertificateAt(m)(s))
  {
    var m := MaterialFor(l, r, protocol);
    ShotEarns(l, r, protocol, s.0, s.1);
    EarnedIsExact(m, s.0, s.1, Judgement(ManifestFor(l, r), TwinSources(l, r), SlotEvidence(m)(s)).value);
  }

  lemma AnswersAre<A, B>(f: A -> Option<B>, xs: seq<A>, ys: seq<B>, zs: seq<B>)
    requires Answers(f, xs, ys) && |zs| == |xs| && forall k :: 0 <= k < |xs| ==> f(xs[k]) == Some(zs[k])
    ensures ys == zs
  {
    forall k | 0 <= k < |xs| ensures ys[k] == zs[k] {
      assert f(xs[k]) == Some(ys[k]);
    }
  }

  lemma IssuedAre(
      l: Workspace100World, r: Workspace100World, protocol: Protocol, slots: seq<Slot>, issued: seq<Certificate>)
    requires Ready(l, r, protocol)
    requires JudgesEach(
      ManifestFor(l, r), TwinSources(l, r), Apply(slots, SlotEvidence(MaterialFor(l, r, protocol))), issued)
    ensures issued == Apply(slots, CertificateAt(MaterialFor(l, r, protocol)))
  {
    var m := MaterialFor(l, r, protocol);
    var f := JudgementOf(ManifestFor(l, r), TwinSources(l, r));
    forall s: Slot ensures f(SlotEvidence(m)(s)) == Some(CertificateAt(m)(s)) {
      SlotIsJudged(l, r, protocol, s);
    }
    IssuedFor(f, SlotEvidence(m), CertificateAt(m), slots, issued);
  }

  lemma IssuedFor(
      f: Evidence -> Option<Certificate>, shown: Slot -> Evidence, judged: Slot -> Certificate,
      slots: seq<Slot>, issued: seq<Certificate>)
    requires Answers(f, Apply(slots, shown), issued)
    requires forall s: Slot :: f(shown(s)) == Some(judged(s))
    ensures issued == Apply(slots, judged)
  {
    AnswersAre(f, Apply(slots, shown), issued, Apply(slots, judged));
  }

  // ---------- the truth of a pair ----------

  datatype AuthoringError = VerifierRefused(error: VerificationError) | RouteRefused | CasesRefused | CaseRefused

  /** Both panels, by completion commitment. */
  method VerifyTwinPanels(l: Workspace100World, r: Workspace100World, manifest: Manifest)
    returns (res: Result<map<string, Panel>, VerificationError>)
    requires AreTwins(l, r) && l.Runnable() && manifest == ManifestFor(l, r)
    ensures res == Ok(map[l.commitment := PanelFor(l), r.commitment := PanelFor(r)])
  {
    TwinsShareDeclaration(l, r);
    NamesAreKnown(l);
    SideAccepted(l, manifest);
    SideAccepted(r, manifest);
    var left := VerifySourcePanel(SourceOf(l), manifest.atoms, manifest.stateChannels);
    var right := VerifySourcePanel(SourceOf(r), manifest.atoms, manifest.stateChannels);
    match left {
      case Err(error) => return Err(error);
      case Ok(first) =>
        match right {
          case Err(error) => return Err(error);
          case Ok(second) => res := Ok(map[l.commitment := first.Shown(), r.commitment := second.Shown()]);
        }
    }
  }

  ghost predicate AssignedAs(protocol: Protocol, m: PairMaterial, assignments: seq<Assignment>, s: Slot) {
    AssignedEpisodes(assignments, RouteFor(protocol)(m), protocol.digest(SlotEvidence(m)(s)))
    == if Neutral(s.1) then [m.left.episodeId, m.right.episodeId] else [SideOf(m, s.0).episodeId]
  }

  /** The assignments of every case of the pair are those of its projection. */
  ghost function Authorable(protocol: Protocol): (PairMaterial, seq<Assignment>) -> bool {
    (m: PairMaterial, assignments: seq<Assignment>) =>
      && protocol.Binding() && TwinShots(Shots(m), m.manifest)
      && forall s: Slot :: AssignedAs(protocol, m, assignments, s)
  }

  lemma SlotIsAuthored(protocol: Protocol, m: PairMaterial, assignments: seq<Assignment>, s: Slot)
    requires protocol.Binding() && TwinShots(Shots(m), m.manifest) && m.left.commitment != m.right.commitment
    requires AssignedAs(protocol, m, assignments, s)
    ensures var k := SlotCase(m)(s);
      var episodes := AssignedEpisodes(assignments, RouteFor(protocol)(m), protocol.digest(k.evidence));
      AuthorTruthCase(protocol, k, RouteFor(protocol)(m), CertificateAt(m)(s), PanelsOf(m), episodes)
      == Some(TruthAt(protocol, m)(s))
  {
    AuthoringSucceeds(protocol, m, s.0, s.1, CertificateOf(m, s.0, s.1));
  }

  /** The inner loop of `build_workspace100_truth`. */
  method AuthorCases(
      protocol: Protocol, route: PairRoute, cases: seq<PublicCase>, certificates: seq<Certificate>,
      panels: map<string, Panel>, assignments: seq<Assignment>, ghost m: PairMaterial, ghost slots: seq<Slot>)
    returns (r: Result<seq<TruthCase>, AuthoringError>)
    requires Authorable(protocol)(m, assignments) && m.left.commitment != m.right.commitment
    requires route == RouteFor(protocol)(m) && panels == PanelsOf(m)
    requires cases == Apply(slots, SlotCase(m)) && certificates == Apply(slots, CertificateAt(m))
    ensures r == Ok(Apply(slots, TruthAt(protocol, m)))
  {
    var truths: seq<TruthCase> := [];
    ghost var expected := Apply(slots, TruthAt(protocol, m));
    for k := 0 to |cases|
      invariant truths == expected[..k]
    {
      SlotIsAuthored(protocol, m, assignments, slots[k]);
      var episodes := AssignedEpisodes(assignments, route, protocol.digest(cases[k].evidence));
      var truth := AuthorTruthCase(protocol, cases[k], route, certificates[k], panels, episodes);
      match truth {
        case None => return Err(CaseRefused);
        case Some(c) =>
          PrefixGrows(truths, expected, k, c);
          truths := truths + [c];
      }
    }
    assert expected[..|cases|] == expected;
    r := Ok(truths);
  }

  function EvidenceOf(k: PublicCase): Evidence {
    k.evidence
  }

  lemma EvidenceOfSlots(m: PairMaterial, slots: seq<Slot>)
    ensures Apply(Apply(slots, SlotCase(m)), EvidenceOf) == Apply(slots, SlotEvidence(m))
  {
  }

  /** The material of two decoded twins that are ready for authoring, side by side. */
  ghost predicate Authored(protocol: Protocol, l: Workspace100World, r: Workspace100World, m: PairMaterial) {
    forall left: bool :: AuthoredSide(protocol, l, r, m, left)
  }

  ghost predicate AuthoredSide(
    protocol: Protocol, l: Workspace100World, r: Workspace100World, m: PairMaterial, left: bool)
  {
    && Ready(l, r, protocol) && m == MaterialFor(l, r, protocol)
    && SideOf(m, left) == VerifiedSide(if left then l else r, protocol)
  }

  /** The certificates that the verifier issues for the cases of a route. */
  method JudgeCases(
      protocol: Protocol, l: Workspace100World, r: Workspace100World, manifest: Manifest,
      cases: seq<PublicCase>, ghost slots: seq<Slot>)
    returns (res: Result<seq<Certificate>, VerificationError>)
    requires Ready(l, r, protocol) && manifest == ManifestFor(l, r) && 1 <= |slots| <= MAX_EVIDENCE_BATCH
    requires cases == Apply(slots, SlotCase(MaterialFor(l, r, protocol)))
    ensures res == Ok(Apply(slots, CertificateAt(MaterialFor(l, r, protocol))))
  {
    ManifestIsValid(l, r);
    EvidenceOfSlots(MaterialFor(l, r, protocol), slots);
    TwinBatchAccepted(l, r, protocol, slots);
    var evidences := Apply(cases, EvidenceOf);
    res := VerifyRegistryAttributions(TwinSources(l, r), manifest, manifest, evidences);
    if res.Ok? {
      IssuedAre(l, r, protocol, slots, res.value);
    }
  }

  /** Both panels and the certificates of one route. */
  method VerifyRoute(
      protocol: Protocol, l: Workspace100World, r: Workspace100World, manifest: Manifest,
      cases: seq<PublicCase>, ghost slots: seq<Slot>, ghost m: PairMaterial)
    returns (panels: map<string, Panel>, issued: Result<seq<Certificate>, VerificationError>)
    requires Authored(protocol, l, r, m) && manifest == m.manifest && 1 <= |slots| <= MAX_EVIDENCE_BATCH
    requires cases == Apply(slots, SlotCase(m))
    ensures panels == PanelsOf(m) && m.left.commitment != m.right.commitment
    ensures issued == Ok(Apply(slots, CertificateAt(m)))
  {
    assert AuthoredSide(protocol, l, r, m, true) && AuthoredSide(protocol, l, r, m, false);
    MaterialNames(l, r, protocol, m);
    SidePanels(l, r, protocol, m);
    var verified := VerifyTwinPanels(l, r, manifest);
    match verified {
      case Err(error) => return map[], Err(error);
      case Ok(byCommitment) =>
        panels := byCommitment;
        issued := JudgeCases(protocol, l, r, manifest, cases, slots);
    }
  }

  /** The views of regular materials, as they are projected. */
  ghost function Projected(protocol: Protocol): (seq<PairMaterial>, EvidenceViews) -> bool {
    (ms: seq<PairMaterial>, views: EvidenceViews) =>
      protocol.Binding() && Regular(ms) && views == ViewsOf(protocol, ms)
  }

  /** The cases of a routed pair are found, all six of them. */
  method CasesOfRoute(
      protocol: Protocol, route: PairRoute, views: EvidenceViews, ghost ms: seq<PairMaterial>, ghost i: nat)
    returns (cases: Option<seq<PublicCase>>)
    requires Projected(protocol)(ms, views) && i < |ms| && route == RouteFor(protocol)(ms[i])
    ensures cases == Some(Apply(SlotOrder(protocol, ms[i]), SlotCase(ms[i])))
    ensures Authorable(protocol)(ms[i], views.assignments) && |SlotOrder(protocol, ms[i])| == 6
  {
    SixInOrder(protocol, ms[i]);
    RouteHasCases(protocol, ms, i);
    EachSlotAssigned(protocol, ms, i);
    cases := PublicCasesForRoute(protocol, route, views.cases);
    if cases.Some? {
      RouteCasesAre(protocol, ms, i, cases.value);
    }
  }

  /** Truth authoring for one route of a projection: its six cases looked up by
      digest, both panels, one certificate a case, and the truth of each. */
  method AuthorPair(
      protocol: Protocol, l: Workspace100World, r: Workspace100World, route: PairRoute,
      views: EvidenceViews, ghost ms: seq<PairMaterial>, ghost i: nat)
    returns (res: Result<seq<TruthCase>, AuthoringError>)
    requires Projected(protocol)(ms, views) && i < |ms| && route == RouteFor(protocol)(ms[i])
    requires Authored(protocol, l, r, ms[i])
    ensures res == Ok(RouteTruths(protocol)(ms[i]))
  {
    var cases := CasesOfRoute(protocol, route, views, ms, i);
    match cases {
      case None => return Err(CasesRefused);
      case Some(found) =>
        res := AuthorFound(protocol, l, r, route, found, views.assignments, ms[i], SlotOrder(protocol, ms[i]));
    }
  }

  method AuthorFound(
      protocol: Protocol, l: Workspace100World, r: Workspace100World, route: PairRoute,
      cases: seq<PublicCase>, assignments: seq<Assignment>, ghost m: PairMaterial, ghost slots: seq<Slot>)
    returns (res: Result<seq<TruthCase>, AuthoringError>)
    requires Authored(protocol, l, r, m) && 1 <= |slots| <= MAX_EVIDENCE_BATCH
    requires route == RouteFor(protocol)(m) && Authorable(protocol)(m, assignments)
    requires cases == Apply(slots, SlotCase(m))
    ensures res == Ok(Apply(slots, TruthAt(protocol, m)))
  {
    var panels, certificates := VerifyRoute(protocol, l, r, route.manifest, cases, slots, m);
    match certificates {
      case Err(error) => return Err(VerifierRefused(error));
      case Ok(issued) => res := AuthorCases(protocol, route, cases, issued, panels, assignments, m, slots);
    }
  }

  lemma SixInOrder(protocol: Protocol, m: PairMaterial)
    ensures |SlotOrder(protocol, m)| == 6 && multiset(SlotOrder(protocol, m)) == multiset(SIX_SLOTS)
  {
    SameMultiset(SlotOrder(protocol, m), SIX_SLOTS);
  }

  lemma RouteHasCases(protocol: Protocol, ms: seq<PairMaterial>, i: nat)
    requires protocol.Binding() && Regular(ms) && i < |ms|
    ensures var digests := RouteDigests(RouteFor(protocol)(ms[i]));
      |digests| == 6 && Available(protocol, ViewsOf(protocol, ms).cases, digests)
  {
    SixRouteDigests(protocol, ms[i]);
    forall d | d in RouteDigests(RouteFor(protocol)(ms[i]))
      ensures FindCase(protocol, ViewsOf(protocol, ms).cases, d).Some?
    {
      var s := SlotWithDigest(protocol, ms[i], d);
      SlotIsFound(protocol, ms, i, s);
    }
  }

  lemma EachSlotAssigned(protocol: Protocol, ms: seq<PairMaterial>, i: nat)
    requires protocol.Binding() && Regular(ms) && i < |ms|
    ensures Authorable(protocol)(ms[i], ViewsOf(protocol, ms).assignments)
  {
    forall s: Slot ensures AssignedAs(protocol, ms[i], ViewsOf(protocol, ms).assignments, s) {
      AssignedEpisodesAre(protocol, ms, i, s.0, s.1);
    }
  }
}
