/** Private truth for one twin pair: certificates issued by the verifier, and
    the checks that truth authoring makes on them
    (src/witnessgap/workspace100/truth.py:418-452, 546-565, 715-774). */
module Truth {
  import opened Model
  import opened Order
  import opened Panels
  import opened Attribution
  import opened Certificates
  import opened Records
  import opened Runtime
  import opened Views
  import opened Projection
  import opened Verdicts

  datatype TruthCase = TruthCase(
    pairId: string,
    taskId: string,
    digest: string,
    assignmentEpisodeIds: seq<string>,
    publicCase: PublicCase,
    certificate: Certificate,
    minimalWitnesses: Option<seq<Witness>>)

  /** `evidence_digest_for`; `None` stands for `KeyError`. */
  function DigestFor(digests: seq<(ViewKind, string)>, view: ViewKind): Option<string> {
    if digests == [] then None
    else if digests[0].0 == view then Some(digests[0].1)
    else DigestFor(digests[1..], view)
  }

  function HasDigest(view: ViewKind, digest: string): CompletionRoute -> bool {
    (s: CompletionRoute) => DigestFor(s.digests, view) == Some(digest)
  }

  /** The routed sources that a case was projected from. */
  function ExpectedSources(route: PairRoute, view: ViewKind, digest: string): seq<CompletionRoute> {
    Filter([route.left, route.right], HasDigest(view, digest))
  }

  function EpisodeIds(sources: seq<CompletionRoute>): seq<string> {
    Apply(sources, (s: CompletionRoute) => s.episodeId)
  }

  function SourceCommitments(sources: seq<CompletionRoute>): seq<string> {
    Apply(sources, (s: CompletionRoute) => s.commitment)
  }

  /** `_author_truth_case`; `None` stands for its refusal. */
  function AuthorTruthCase(
    protocol: Protocol, k: PublicCase, route: PairRoute, certificate: Certificate,
    panels: map<string, Panel>, assignmentEpisodeIds: seq<string>): Option<TruthCase>
  {
    var digest := protocol.digest(k.evidence);
    var expected := ExpectedSources(route, k.view, digest);
    if assignmentEpisodeIds != EpisodeIds(expected) then None
    else if !Neutral(k.view) && (expected == [] || expected[0].commitment !in panels) then None
    else Some(TruthCase(
      route.pairId, route.manifest.taskId, digest, assignmentEpisodeIds, k, certificate,
      if Neutral(k.view) then None else Some(panels[expected[0].commitment].minimalWitnesses)))
  }

  /** `TruthCaseRecord.validate`: assignments and verdict shape. */
  ghost predicate ValidTruthCase(protocol: Protocol, c: TruthCase) {
    var view := c.publicCase.view;
    && c.digest == protocol.digest(c.publicCase.evidence)
    && |c.assignmentEpisodeIds| == (if Neutral(view) then 2 else 1) && Distinct(c.assignmentEpisodeIds)
    && c.certificate.evidence == c.publicCase.evidence && ValidCertificate(c.certificate)
    && ValidVerdictShape(view, c.certificate, c.minimalWitnesses)
  }

  /** `_validate_case_verdict_shape` */
  predicate ValidVerdictShape(view: ViewKind, certificate: Certificate, minimalWitnesses: Option<seq<Witness>>) {
    var d := certificate.diagnosis;
    if Neutral(view) then
      && d.kind == NotIdentifiable && d.unknownReason == Some(AmbiguousWorlds)
      && d.targetFamily == None && minimalWitnesses == None
    else
      && d.kind == IdentifiedSingleton && d.unknownReason == None
      && (d.targetFamily == Some(ENVIRONMENT_FAMILY) || d.targetFamily == Some(POLICY_FAMILY))
      && minimalWitnesses.Some? && |minimalWitnesses.value| == 1 && |minimalWitnesses.value[0]| == 1
  }

  /** The checks of `_validate_truth_set_cases` on one case and its route. */
  predicate ValidRoutedCase(protocol: Protocol, c: TruthCase, route: PairRoute) {
    var expected := ExpectedSources(route, c.publicCase.view, c.digest);
    && c.pairId == route.pairId && c.taskId == route.manifest.taskId
    && c.publicCase.templateId == route.templateId && c.publicCase.split == route.split
    && c.assignmentEpisodeIds == EpisodeIds(expected)
    && c.certificate.compatible == SourceCommitments(expected)
    && c.certificate.registry == route.manifest
    && ValidRoutedVerdict(c, route, expected)
  }

  /** `_validate_routed_verdict` */
  predicate ValidRoutedVerdict(c: TruthCase, route: PairRoute, expected: seq<CompletionRoute>) {
    if Neutral(c.publicCase.view) then
      && |expected| == 2
      && c.certificate.ambiguity == Some((route.left.commitment, route.right.commitment))
      && c.certificate.compatible == [route.left.commitment, route.right.commitment]
    else
      var family := c.certificate.diagnosis.targetFamily;
      && |expected| == 1 && family.Some? && family.value != [] && family.value[0] != []
      && var atom := AtomForTarget(route.manifest.atoms, family.value[0][0]);
         atom.Some? && c.minimalWitnesses == Some([[atom.value]])
  }

  // ---------- routes and digests ----------

  lemma {:induction false} DigestForAt(digests: seq<(ViewKind, string)>, view: ViewKind, i: nat)
    requires i < |digests| && digests[i].0 == view && forall j :: 0 <= j < i ==> digests[j].0 != view
    ensures DigestFor(digests, view) == Some(digests[i].1)
  {
    if i > 0 {
      DigestForAt(digests[1..], view, i - 1);
    }
  }

  lemma RouteDigest(protocol: Protocol, m: PairMaterial, left: bool, view: ViewKind)
    ensures DigestFor(SideRoute(protocol, m, left).digests, view) == Some(protocol.digest(Shots(m)(left, view)))
  {
    DigestForAt(SideRoute(protocol, m, left).digests, view, ViewRank(view));
  }

  /** A case routes back to both twins under a neutral view, and otherwise to
      the twin that it shows. */
  lemma ExpectedSourcesAre(protocol: Protocol, m: PairMaterial, left: bool, view: ViewKind)
    requires protocol.Binding() && TwinShots(Shots(m), m.manifest)
    ensures ExpectedSources(RouteFor(protocol)(m), view, protocol.digest(Shots(m)(left, view)))
      == if Neutral(view) then [SideRoute(protocol, m, true), SideRoute(protocol, m, false)]
         else [SideRoute(protocol, m, left)]
  {
    var route := RouteFor(protocol)(m);
    RouteDigest(protocol, m, true, view);
    RouteDigest(protocol, m, false, view);
    var shown := Shots(m);
    assert shown(true, view) == shown(left, view) <==> left || Neutral(view);
    assert shown(false, view) == shown(left, view) <==> !left || Neutral(view);
    Views.FilterPair(route.left, route.right, HasDigest(view, protocol.digest(shown(left, view))));
  }

  function PanelsOf(m: PairMaterial): map<string, Panel> {
    map[m.left.commitment := m.left.panel, m.right.commitment := m.right.panel]
  }

  /** What the authored record of one case is. */
  function TruthOf(
    protocol: Protocol, m: PairMaterial, left: bool, view: ViewKind, certificate: Certificate): TruthCase
  {
    TruthCase(
      m.pairId, m.manifest.taskId, protocol.digest(Shots(m)(left, view)),
      if Neutral(view) then [m.left.episodeId, m.right.episodeId] else [SideOf(m, left).episodeId],
      ShotBinding(m, Shots(m), left)(view).publicCase, certificate,
      if Neutral(view) then None else Some(SideOf(m, left).panel.minimalWitnesses))
  }

  // ---------- the six cases of a pair ----------

  /** Which twin a case was projected from, and under which view. */
  type Slot = (bool, ViewKind)

  const SIX_SLOTS: seq<Slot> := [
    (true, TraceOnly), (true, OwnerProbe), (true, EpochProbe), (true, RefreshReceipt),
    (false, EpochProbe), (false, RefreshReceipt)]

  function SlotCase(m: PairMaterial): Slot -> PublicCase {
    (s: Slot) => PublicCase(m.templateId, m.split, s.1, Shots(m)(s.0, s.1))
  }

  function SlotEvidence(m: PairMaterial): Slot -> Evidence {
    (s: Slot) => Shots(m)(s.0, s.1)
  }

  /** The one certificate that a view can earn. */
  function CertificateOf(m: PairMaterial, left: bool, view: ViewKind): Certificate {
    var c := SideOf(m, left);
    var both := (m.left.commitment, m.right.commitment);
    if Neutral(view) then
      Certificate(m.manifest, Shots(m)(left, view), RootFor(m, left, view), AMBIGUOUS, [both.0, both.1], Some(both))
    else
      Certificate(
        m.manifest, Shots(m)(left, view), RootFor(m, left, view),
        Diagnosis(IdentifiedSingleton, Some(c.panel.targetFamily), None), [c.commitment], None)
  }

  lemma EarnedIsExact(m: PairMaterial, left: bool, view: ViewKind, certificate: Certificate)
    ensures EarnedBy(m, left, view, certificate) && certificate.evidence == Shots(m)(left, view)
      <==> certificate == CertificateOf(m, left, view)
  {
  }

  /** The truth of one slot. */
  function TruthAt(protocol: Protocol, m: PairMaterial): Slot -> TruthCase {
    (s: Slot) => TruthOf(protocol, m, s.0, s.1, CertificateOf(m, s.0, s.1))
  }

  function PairTruths(protocol: Protocol): PairMaterial -> seq<TruthCase> {
    (m: PairMaterial) => Apply(SIX_SLOTS, TruthAt(protocol, m))
  }

  /** Authoring refuses no projected case. */
  lemma AuthoringSucceeds(protocol: Protocol, m: PairMaterial, left: bool, view: ViewKind, certificate: Certificate)
    requires protocol.Binding() && TwinShots(Shots(m), m.manifest)
    requires m.left.commitment != m.right.commitment
    ensures var truth := TruthOf(protocol, m, left, view, certificate);
      AuthorTruthCase(
        protocol, truth.publicCase, RouteFor(protocol)(m), certificate, PanelsOf(m), truth.assignmentEpisodeIds)
      == Some(truth)
  {
    ExpectedSourcesAre(protocol, m, left, view);
    var truth := TruthOf(protocol, m, left, view, certificate);
    var expected := ExpectedSources(RouteFor(protocol)(m), view, truth.digest);
    assert EpisodeIds(expected) == truth.assignmentEpisodeIds;
  }

  ghost predicate CommitmentsOrdered(m: PairMaterial) {
    StringLe(m.left.commitment, m.right.commitment) && m.left.commitment != m.right.commitment
  }

  /** What truth authoring needs to know of twins of template `t`. */
  ghost predicate SoundTwins(m: PairMaterial, t: TemplateRecord) {
    && TwinFacts(m, t) && m.left.episodeId != m.right.episodeId && CommitmentsOrdered(m)
    && AtomForTarget(m.manifest.atoms, POLICY) == Some(t.repairAtom)
  }

  lemma EarnedIsValid(m: PairMaterial, left: bool, view: ViewKind, certificate: Certificate)
    requires BalancedTargets(m.left, m.right) && CommitmentsOrdered(m) && EarnedBy(m, left, view, certificate)
    ensures ValidCertificate(certificate)
  {
    if !Neutral(view) {
      SideTarget(m, left);
      SingletonIsValid(SideOf(m, left).panel.targetFamily);
    }
  }

  lemma SingletonIsValid(family: TargetFamily)
    requires family == ENVIRONMENT_FAMILY || family == POLICY_FAMILY
    ensures ValidTargets(family) && |family| == 1 && |family[0]| == 1
  {
  }

  lemma SoundVerdictShape(m: PairMaterial, t: TemplateRecord, left: bool, view: ViewKind, certificate: Certificate)
    requires TwinFacts(m, t) && EarnedBy(m, left, view, certificate)
    ensures ValidVerdictShape(
      view, certificate, if Neutral(view) then None else Some(SideOf(m, left).panel.minimalWitnesses))
  {
    if !Neutral(view) {
      assert ValidTwinSide(SideOf(m, left), t.refreshAtom, t.repairAtom);
      SideTarget(m, left);
    }
  }

  lemma TruthHasShape(
      protocol: Protocol, m: PairMaterial, t: TemplateRecord, left: bool, view: ViewKind, certificate: Certificate)
    requires TwinFacts(m, t) && m.left.episodeId != m.right.episodeId && CommitmentsOrdered(m)
    requires EarnedBy(m, left, view, certificate) && certificate.evidence == Shots(m)(left, view)
    ensures ValidTruthCase(protocol, TruthOf(protocol, m, left, view, certificate))
  {
    EarnedIsValid(m, left, view, certificate);
    SoundVerdictShape(m, t, left, view, certificate);
    ShapedTruthIsValid(protocol, m, left, view, certificate);
  }

  lemma ShapedTruthIsValid(protocol: Protocol, m: PairMaterial, left: bool, view: ViewKind, certificate: Certificate)
    requires m.left.episodeId != m.right.episodeId
    requires certificate.evidence == Shots(m)(left, view) && ValidCertificate(certificate)
    requires ValidVerdictShape(
      view, certificate, if Neutral(view) then None else Some(SideOf(m, left).panel.minimalWitnesses))
    ensures ValidTruthCase(protocol, TruthOf(protocol, m, left, view, certificate))
  {
  }

  lemma SideTarget(m: PairMaterial, left: bool)
    requires BalancedTargets(m.left, m.right)
    ensures SideOf(m, left).panel.targetFamily == ENVIRONMENT_FAMILY
      || SideOf(m, left).panel.targetFamily == POLICY_FAMILY
  {
    var families := {m.left.panel.targetFamily, m.right.panel.targetFamily};
    assert SideOf(m, left).panel.targetFamily in families;
    assert families == {ENVIRONMENT_FAMILY, POLICY_FAMILY};
  }

  /** The certificate's target names the atom of the minimal witness. */
  lemma WitnessMatchesTarget(m: PairMaterial, t: TemplateRecord, left: bool)
    requires TwinFacts(m, t) && AtomForTarget(m.manifest.atoms, POLICY) == Some(t.repairAtom)
    ensures var c := SideOf(m, left);
      && c.panel.targetFamily != [] && c.panel.targetFamily[0] != []
      && var atom := AtomForTarget(m.manifest.atoms, c.panel.targetFamily[0][0]);
         atom.Some? && c.panel.minimalWitnesses == [[atom.value]]
  {
    SideTarget(m, left);
    TargetsDiffer();
    assert ValidTwinSide(SideOf(m, left), t.refreshAtom, t.repairAtom);
  }

  lemma VerdictIsRouted(
      protocol: Protocol, m: PairMaterial, t: TemplateRecord, left: bool, view: ViewKind, certificate: Certificate,
      expected: seq<CompletionRoute>)
    requires TwinFacts(m, t) && AtomForTarget(m.manifest.atoms, POLICY) == Some(t.repairAtom)
    requires EarnedBy(m, left, view, certificate) && |expected| == if Neutral(view) then 2 else 1
    ensures ValidRoutedVerdict(TruthOf(protocol, m, left, view, certificate), RouteFor(protocol)(m), expected)
  {
    WitnessMatchesTarget(m, t, left);
  }

  lemma TruthIsRouted(
      protocol: Protocol, m: PairMaterial, t: TemplateRecord, left: bool, view: ViewKind, certificate: Certificate)
    requires protocol.Binding() && TwinFacts(m, t) && TwinShots(Shots(m), m.manifest)
    requires AtomForTarget(m.manifest.atoms, POLICY) == Some(t.repairAtom)
    requires EarnedBy(m, left, view, certificate)
    ensures ValidRoutedCase(protocol, TruthOf(protocol, m, left, view, certificate), RouteFor(protocol)(m))
  {
    var truth := TruthOf(protocol, m, left, view, certificate);
    var route := RouteFor(protocol)(m);
    ExpectedSourcesAre(protocol, m, left, view);
    var expected := ExpectedSources(route, view, truth.digest);
    ExpectedIds(protocol, m, left, view, certificate, expected);
    VerdictIsRouted(protocol, m, t, left, view, certificate, expected);
  }

  lemma ExpectedIds(
      protocol: Protocol, m: PairMaterial, left: bool, view: ViewKind, certificate: Certificate,
      expected: seq<CompletionRoute>)
    requires expected == if Neutral(view) then [SideRoute(protocol, m, true), SideRoute(protocol, m, false)]
                         else [SideRoute(protocol, m, left)]
    requires EarnedBy(m, left, view, certificate)
    ensures EpisodeIds(expected) == TruthOf(protocol, m, left, view, certificate).assignmentEpisodeIds
    ensures SourceCommitments(expected) == certificate.compatible
  {
  }

  // ---------- truth that passes every check ----------

  /** A truth case that passes every check and states the earned verdict. */
  ghost predicate Truthful(protocol: Protocol, m: PairMaterial, s: Slot, c: TruthCase) {
    && c.publicCase == SlotCase(m)(s)
    && EarnedBy(m, s.0, s.1, c.certificate)
    && ValidTruthCase(protocol, c) && ValidRoutedCase(protocol, c, RouteFor(protocol)(m))
  }

  ghost predicate AllTruthful(protocol: Protocol, m: PairMaterial, truths: seq<TruthCase>) {
    |truths| == 6 && forall k :: 0 <= k < 6 ==> Truthful(protocol, m, SIX_SLOTS[k], truths[k])
  }

  /** The truth of every slot passes every check on a case. */
  lemma TruthIsSound(protocol: Protocol, m: PairMaterial, t: TemplateRecord, s: Slot)
    requires protocol.Binding() && SoundTwins(m, t)
    ensures Truthful(protocol, m, s, TruthAt(protocol, m)(s))
  {
    var certificate := CertificateOf(m, s.0, s.1);
    EarnedIsExact(m, s.0, s.1, certificate);
    PairShots(m, t);
    TruthHasShape(protocol, m, t, s.0, s.1, certificate);
    TruthIsRouted(protocol, m, t, s.0, s.1, certificate);
  }

  lemma PairTruthsAreSound(protocol: Protocol, m: PairMaterial, t: TemplateRecord)
    requires protocol.Binding() && SoundTwins(m, t)
    ensures AllTruthful(protocol, m, PairTruths(protocol)(m))
  {
    forall k | 0 <= k < 6 ensures Truthful(protocol, m, SIX_SLOTS[k], PairTruths(protocol)(m)[k]) {
      TruthIsSound(protocol, m, t, SIX_SLOTS[k]);
    }
  }
}
