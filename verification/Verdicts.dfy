/** Which completions a projected view leaves open, and the exact certificate
    that it earns (src/witnessgap/verifier.py:353-422, views.py:679-716). */
module Verdicts {
  import opened Model
  import opened Attribution
  import opened Verifier
  import opened Certificates
  import opened Batch
  import opened Records
  import opened Runtime
  import opened Views
  import Agreement

  function ProbeTableOf(probes: seq<ProbeObservation>): map<string, Bytes> {
    map n | n in (set p | p in probes :: p.name) && FirstProbe(probes, n).Some? :: FirstProbe(probes, n).value
  }

  function AsCompletion(c: VerifiedCompletion): Completion {
    Completion(c.commitment, c.panel, ProbeTableOf(c.probes))
  }

  lemma ProbeLookup(c: VerifiedCompletion, name: string)
    ensures name in AsCompletion(c).probes <==> c.ProbeFor(name).Some?
    ensures name in AsCompletion(c).probes ==> c.ProbeFor(name) == Some(AsCompletion(c).probes[name])
  {
    if c.ProbeFor(name).Some? {
      assert ProbeObservation(name, c.ProbeFor(name).value) in c.probes;
    }
  }

  // ---------- compatibility ----------

  /** Evidence of a view is true of a completion exactly when the view would
      show that completion the same. */
  lemma MatchesIsShown(m: PairMaterial, t: TemplateRecord, c: VerifiedCompletion, view: ViewKind, e: Evidence)
    requires ExposesView(e, t, view) && e.registry == m.manifest && e.coverage == m.manifest.CoverageDigest()
    requires c.OutcomeOf([]) == Some(Failure)
    ensures Matches(AsCompletion(c), e) <==> Shown(m, t, c, view, e)
  {
    ProbeLookup(c, OWNER_PROBE);
    ProbeLookup(c, t.epochProbe);
    if view == RefreshReceipt {
      assert e.interventions == [e.interventions[0]];
    } else if view != TraceOnly {
      assert e.probes == [e.probes[0]];
    }
  }

  /** A completion is compatible with projected evidence exactly when its own
      projection under that view is the same evidence. */
  lemma CompatibleIffSameProjection(
      m: PairMaterial, t: TemplateRecord, c: VerifiedCompletion, c': VerifiedCompletion, view: ViewKind)
    requires TwinFacts(m, t) && IsSide(c, m) && IsSide(c', m)
    ensures ProjectEvidence(m, c, view).Some?
    ensures var e := ProjectEvidence(m, c, view).value;
      Matches(AsCompletion(c'), e) <==> ProjectEvidence(m, c', view) == Some(e)
  {
    ProjectionShows(m, t, c, view);
    ProjectionShows(m, t, c', view);
    var e := ProjectEvidence(m, c, view).value;
    MatchesIsShown(m, t, c', view, e);
    if Shown(m, t, c', view, e) {
      ShownIsUnique(m, t, c', view, e, ProjectEvidence(m, c', view).value);
    }
  }

  /** Projected evidence is true of the twin it shows, and of the other one
      exactly under the neutral views. */
  lemma ViewMatches(m: PairMaterial, t: TemplateRecord, left: bool, view: ViewKind)
    requires TwinFacts(m, t)
    ensures var c := if left then m.left else m.right;
      && ProjectEvidence(m, c, view).Some?
      && var e := ProjectEvidence(m, c, view).value;
         && (Matches(AsCompletion(m.left), e) <==> left || Neutral(view))
         && (Matches(AsCompletion(m.right), e) <==> !left || Neutral(view))
  {
    var c := if left then m.left else m.right;
    CompatibleIffSameProjection(m, t, c, m.left, view);
    CompatibleIffSameProjection(m, t, c, m.right, view);
    TwinsDifferOnInformativeViews(m, t, view);
  }

  function TwinFamily(m: PairMaterial): seq<Completion> {
    [AsCompletion(m.left), AsCompletion(m.right)]
  }

  lemma CompatiblePair(l: Completion, r: Completion, e: Evidence, left: bool, neutral: bool)
    requires Matches(l, e) <==> left || neutral
    requires Matches(r, e) <==> !left || neutral
    ensures Compatible([l, r], e) == if neutral then [l, r] else [if left then l else r]
  {
    FilterPair(l, r, (x: Completion) => Matches(x, e));
  }

  /** Neutral views leave both twins open, informative ones only the twin that
      was observed. */
  lemma ViewCompatibility(m: PairMaterial, t: TemplateRecord, left: bool, view: ViewKind)
    requires TwinFacts(m, t)
    ensures var c := if left then m.left else m.right;
      && ProjectEvidence(m, c, view).Some?
      && Compatible(TwinFamily(m), ProjectEvidence(m, c, view).value)
         == if Neutral(view) then TwinFamily(m) else [AsCompletion(c)]
  {
    ViewMatches(m, t, left, view);
    var e := ProjectEvidence(m, if left then m.left else m.right, view).value;
    CompatiblePair(AsCompletion(m.left), AsCompletion(m.right), e, left, Neutral(view));
  }

  // ---------- the certificate ----------

  /** The panel root of a pair, with each twin marked as compatible or not. */
  function PairRoot(m: PairMaterial, left: bool, right: bool): seq<PanelEntry> {
    [PanelEntry(left, m.left.commitment, m.left.panel), PanelEntry(right, m.right.commitment, m.right.panel)]
  }

  function RootFor(m: PairMaterial, left: bool, view: ViewKind): seq<PanelEntry> {
    PairRoot(m, left || Neutral(view), !left || Neutral(view))
  }

  /** The certificate that a view of one twin must earn. */
  ghost predicate EarnedBy(m: PairMaterial, left: bool, view: ViewKind, certificate: Certificate) {
    var c := if left then m.left else m.right;
    && certificate.registry == m.manifest
    && certificate.panelRoot == RootFor(m, left, view)
    && if Neutral(view) then
         && certificate.diagnosis == AMBIGUOUS
         && certificate.compatible == [m.left.commitment, m.right.commitment]
         && certificate.ambiguity == Some((m.left.commitment, m.right.commitment))
       else
         && certificate.diagnosis == Diagnosis(IdentifiedSingleton, Some(c.panel.targetFamily), None)
         && certificate.compatible == [c.commitment]
         && certificate.ambiguity == None
  }

  lemma ConcludeBoth(a: VerifiedPanel, b: VerifiedPanel)
    requires PanelProfile(a) != PanelProfile(b)
    ensures Conclude([a, b]) == (AMBIGUOUS, Some((a.commitment, b.commitment)))
  {
    var profiles := Apply([a, b], PanelProfile);
    ManyProfiles(profiles);
    assert profiles == [PanelProfile(a), PanelProfile(b)];
    assert profiles[1..] == [PanelProfile(b)] && PanelProfile(b) in profiles[1..];
    assert [a, b][1..] == [b];
    OtherExists([a, b], PanelProfile);
  }

  lemma ConcludeOne(a: VerifiedPanel)
    requires |PanelProfile(a)| == 1 && |PanelProfile(a)[0]| == 1
    ensures Conclude([a]) == (Diagnosis(IdentifiedSingleton, Some(PanelProfile(a)), None), None)
  {
    var profiles := Apply([a], PanelProfile);
    ManyProfiles(profiles);
    assert profiles == [PanelProfile(a)];
  }

  /** The judgement depends on the sources only through their completions. */
  lemma JudgementOfFamily(manifest: Manifest, sources: seq<Source>, e: Evidence, compatible: seq<Completion>)
    requires compatible == Compatible(Family(manifest, sources), e) && compatible != []
    ensures var judged := Judgement(manifest, sources, e);
      && judged.Some?
      && judged.value.registry == manifest && judged.value.evidence == e
      && (judged.value.diagnosis, judged.value.ambiguity) == Conclude(Apply(compatible, Agreement.AsPanel))
      && judged.value.compatible == Apply(compatible, Agreement.CompletionCommitment)
  {
    Agreement.SelectedAreCompatible(manifest, sources, e);
    Agreement.JudgementIsLicensed(manifest, sources, e);
    MatchingInRange(Family(manifest, sources), e);
  }

  lemma TargetsAreSingletons(m: PairMaterial, left: bool)
    requires BalancedTargets(m.left, m.right)
    ensures var profile := (if left then m.left else m.right).panel.targetFamily;
      |profile| == 1 && |profile[0]| == 1
  {
    var families := {m.left.panel.targetFamily, m.right.panel.targetFamily};
    assert (if left then m.left else m.right).panel.targetFamily in families;
    assert families == {ENVIRONMENT_FAMILY, POLICY_FAMILY};
  }

  lemma PairAsPanels(l: Completion, r: Completion)
    ensures Apply([l, r], Agreement.AsPanel) == [Agreement.AsPanel(l), Agreement.AsPanel(r)]
    ensures Apply([l, r], Agreement.CompletionCommitment) == [l.commitment, r.commitment]
  {
  }

  lemma TwoOpen(manifest: Manifest, sources: seq<Source>, e: Evidence, l: Completion, r: Completion)
    requires Compatible(Family(manifest, sources), e) == [l, r] && ProfileOf(l) != ProfileOf(r)
    ensures var judged := Judgement(manifest, sources, e);
      && judged.Some? && judged.value.registry == manifest && judged.value.evidence == e
      && judged.value.diagnosis == AMBIGUOUS
      && judged.value.compatible == [l.commitment, r.commitment]
      && judged.value.ambiguity == Some((l.commitment, r.commitment))
  {
    JudgementOfFamily(manifest, sources, e, [l, r]);
    PairAsPanels(l, r);
    ConcludeBoth(Agreement.AsPanel(l), Agreement.AsPanel(r));
  }

  lemma BothOpen(m: PairMaterial, sources: seq<Source>, e: Evidence)
    requires Compatible(Family(m.manifest, sources), e) == TwinFamily(m)
    requires m.left.panel.targetFamily != m.right.panel.targetFamily
    ensures var judged := Judgement(m.manifest, sources, e);
      && judged.Some? && judged.value.registry == m.manifest && judged.value.evidence == e
      && judged.value.diagnosis == AMBIGUOUS
      && judged.value.compatible == [m.left.commitment, m.right.commitment]
      && judged.value.ambiguity == Some((m.left.commitment, m.right.commitment))
  {
    TwoOpen(m.manifest, sources, e, AsCompletion(m.left), AsCompletion(m.right));
  }

  lemma OneOpen(manifest: Manifest, sources: seq<Source>, e: Evidence, c: Completion)
    requires Compatible(Family(manifest, sources), e) == [c]
    requires |ProfileOf(c)| == 1 && |ProfileOf(c)[0]| == 1
    ensures var judged := Judgement(manifest, sources, e);
      && judged.Some? && judged.value.registry == manifest && judged.value.evidence == e
      && judged.value.diagnosis == Diagnosis(IdentifiedSingleton, Some(ProfileOf(c)), None)
      && judged.value.compatible == [c.commitment] && judged.value.ambiguity == None
  {
    JudgementOfFamily(manifest, sources, e, [c]);
    ConcludeOne(Agreement.AsPanel(c));
    assert Apply([c], Agreement.AsPanel) == [Agreement.AsPanel(c)];
    assert Apply([c], Agreement.CompletionCommitment) == [c.commitment];
  }

  /** The panel root marks exactly the twins that the view leaves open. */
  lemma ViewRoot(m: PairMaterial, t: TemplateRecord, left: bool, view: ViewKind)
    requires TwinFacts(m, t)
    ensures var c := if left then m.left else m.right;
      && ProjectEvidence(m, c, view).Some?
      && Agreement.RootOf(TwinFamily(m), ProjectEvidence(m, c, view).value) == RootFor(m, left, view)
  {
    ViewMatches(m, t, left, view);
    var e := ProjectEvidence(m, if left then m.left else m.right, view).value;
    RootOfPair(AsCompletion(m.left), AsCompletion(m.right), e);
  }

  lemma RootOfPair(a: Completion, b: Completion, e: Evidence)
    ensures Agreement.RootOf([a, b], e)
      == [PanelEntry(Matches(a, e), a.commitment, a.panel), PanelEntry(Matches(b, e), b.commitment, b.panel)]
  {
  }

  /** The verdict of every view: ambiguous with both twins named, or the
      observed twin's own singleton target. */
  lemma ViewVerdict(
      m: PairMaterial, t: TemplateRecord, sources: seq<Source>, left: bool, view: ViewKind)
    requires TwinFacts(m, t) && Family(m.manifest, sources) == TwinFamily(m)
    ensures var c := if left then m.left else m.right;
      && ProjectEvidence(m, c, view).Some?
      && var judged := Judgement(m.manifest, sources, ProjectEvidence(m, c, view).value);
         judged.Some? && EarnedBy(m, left, view, judged.value)
         && judged.value.evidence == ProjectEvidence(m, c, view).value
  {
    var c := if left then m.left else m.right;
    ViewCompatibility(m, t, left, view);
    ViewRoot(m, t, left, view);
    var e := ProjectEvidence(m, c, view).value;
    if Neutral(view) {
      OppositeTargets(m);
      BothOpen(m, sources, e);
    } else {
      TargetsAreSingletons(m, left);
      OneOpen(m.manifest, sources, e, AsCompletion(c));
    }
    Agreement.JudgementRoot(m.manifest, sources, e);
  }
}
