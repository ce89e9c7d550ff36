/** Verified pair material, as the trusted builder assembles it from two sealed
    twins (src/witnessgap/workspace100/views.py:719-783). */
module Materials {
  import opened Model
  import opened Order
  import opened Panels
  import opened Attribution
  import opened Verifier
  import opened Runtime
  import opened Views
  import opened Twins

  ghost function ProbeValue(w: Workspace100World): string -> ProbeObservation {
    (name: string) => ProbeObservation(name, match w.Probe(name) case None => [] case Some(value) => value)
  }

  ghost function VerifiedSide(w: Workspace100World, protocol: Protocol): VerifiedCompletion {
    VerifiedCompletion(
      protocol.ids.episodeId(w.commitment), w.commitment, w.snapshot,
      PanelFor(w), Apply(w.ProbeNames(), ProbeValue(w)))
  }

  ghost function MaterialFor(l: Workspace100World, r: Workspace100World, protocol: Protocol): PairMaterial {
    PairMaterial(
      protocol.ids.pairId((l.commitment, r.commitment)),
      l.record.taskId, l.record.templateId, l.template.split,
      ManifestFor(l, r),
      VerifiedSide(l, protocol), VerifiedSide(r, protocol))
  }

  /** `verify_source_probe`: the value is present and reproduced. */
  method VerifySourceProbe(source: Source, name: string) returns (r: Result<Bytes, VerificationError>)
    ensures r.Ok? <==> ProbeReproduces(source, name)
    ensures r.Ok? ==> source.probe(name, 0) == Some(r.value)
  {
    var first := source.probe(name, 0);
    var second := source.probe(name, 1);
    if first.None? || second != first {
      return Err(ProbeFailed);
    }
    r := Ok(first.value);
  }

  lemma DeclaredProbesAnswer(w: Workspace100World, name: string)
    requires name in w.ProbeNames()
    ensures w.Probe(name).Some? && ProbeReproduces(SourceOf(w), name)
  {
    DeclaredName(w.template.epochProbe, OWNER_PROBE, name);
  }

  lemma DeclaredName(a: string, b: string, name: string)
    requires name in Sort(StringLe, [a, b])
    ensures name == a || name == b
  {
    SortedPairIsStrict(a, b);
    assert name in Elements(Sort(StringLe, [a, b]));
  }

  method VerifyProbes(w: Workspace100World) returns (r: Result<seq<ProbeObservation>, VerificationError>)
    ensures r == Ok(Apply(w.ProbeNames(), ProbeValue(w)))
  {
    var probes: seq<ProbeObservation> := [];
    var names := w.ProbeNames();
    ghost var expected := Apply(names, ProbeValue(w));
    for i := 0 to |names|
      invariant probes == expected[..i]
    {
      DeclaredProbesAnswer(w, names[i]);
      var value := VerifySourceProbe(SourceOf(w), names[i]);
      match value {
        case Err(error) => return Err(error);
        case Ok(bytes) =>
          PrefixGrows(probes, expected, i, ProbeObservation(names[i], bytes));
          probes := probes + [ProbeObservation(names[i], bytes)];
      }
    }
    assert expected[..|names|] == expected;
    r := Ok(probes);
  }

  method VerifySide(w: Workspace100World, protocol: Protocol) returns (r: Result<VerifiedCompletion, VerificationError>)
    requires w.Valid() && w.Runnable()
    ensures r == Ok(VerifiedSide(w, protocol))
  {
    NamesAreKnown(w);
    RunnableIsAccepted(w);
    var panel := VerifySourcePanel(SourceOf(w), w.Atoms(), w.StateChannels());
    match panel {
      case Err(error) => return Err(error);
      case Ok(exact) =>
        var probes := VerifyProbes(w);
        match probes {
          case Err(error) => return Err(error);
          case Ok(values) =>
            r := Ok(VerifiedCompletion(
              protocol.ids.episodeId(w.commitment), w.commitment, w.snapshot, exact.Shown(), values));
        }
    }
  }

  /** `_verify_pair_material` fails on twins only for names that no manifest may
      declare. */
  method VerifyPairMaterial(l: Workspace100World, r: Workspace100World, protocol: Protocol)
    returns (m: Result<PairMaterial, VerificationError>)
    requires AreTwins(l, r)
    ensures m == if l.Declarable() then Ok(MaterialFor(l, r, protocol)) else Err(InvalidManifest)
  {
    ManifestIsValid(l, r);
    if !ManifestCheck(ManifestFor(l, r)) {
      return Err(InvalidManifest);
    }
    var left := VerifySide(l, protocol);
    var right := VerifySide(r, protocol);
    match left {
      case Err(error) => return Err(error);
      case Ok(first) =>
        match right {
          case Err(error) => return Err(error);
          case Ok(second) =>
            m := Ok(PairMaterial(
              protocol.ids.pairId((l.commitment, r.commitment)),
              l.record.taskId, l.record.templateId, l.template.split, ManifestFor(l, r), first, second));
        }
    }
  }

  // ---------- the twin property ----------

  lemma {:induction false} FirstProbeReads(names: seq<string>, w: Workspace100World, name: string)
    requires name in names && w.Probe(name).Some?
    ensures FirstProbe(Apply(names, ProbeValue(w)), name) == w.Probe(name)
  {
    var probes := Apply(names, ProbeValue(w));
    if names[0] != name {
      assert probes[1..] == Apply(names[1..], ProbeValue(w));
      FirstProbeReads(names[1..], w, name);
    }
  }

  lemma SideReads(w: Workspace100World, protocol: Protocol)
    ensures VerifiedSide(w, protocol).ProbeFor(OWNER_PROBE) == w.Probe(OWNER_PROBE)
    ensures VerifiedSide(w, protocol).ProbeFor(w.template.epochProbe) == w.Probe(w.template.epochProbe)
  {
    SortedPairIsStrict(w.template.epochProbe, OWNER_PROBE);
    assert OWNER_PROBE in Elements(w.ProbeNames()) && w.template.epochProbe in Elements(w.ProbeNames());
    FirstProbeReads(w.ProbeNames(), w, OWNER_PROBE);
    FirstProbeReads(w.ProbeNames(), w, w.template.epochProbe);
  }

  lemma SideOutcome(w: Workspace100World, protocol: Protocol, s: Witness)
    requires w.Valid() && w.Runnable() && StrictlySorted(StringLe, s) && Elements(s) <= w.Known()
    ensures VerifiedSide(w, protocol).OutcomeOf(s) == Some(if Cause(w) in s then Success else Failure)
  {
    RuntimeReceipt(w, s);
    RunnableProduces(w, Elements(s));
    ExecutionIsExact(w, Elements(s));
  }

  /** The receipts of `c` report that `cause` decides. */
  ghost predicate Reports(c: VerifiedCompletion, cause: string, known: set<string>) {
    forall s :: StrictlySorted(StringLe, s) && Elements(s) <= known ==>
      c.OutcomeOf(s) == Some(if cause in s then Success else Failure)
  }

  lemma SideReports(w: Workspace100World, protocol: Protocol)
    requires w.Valid() && w.Runnable()
    ensures Reports(VerifiedSide(w, protocol), Cause(w), w.Known())
  {
    forall s | StrictlySorted(StringLe, s) && Elements(s) <= w.Known()
      ensures VerifiedSide(w, protocol).OutcomeOf(s) == Some(if Cause(w) in s then Success else Failure)
    {
      SideOutcome(w, protocol, s);
    }
  }

  lemma ReportedMatrix(c: VerifiedCompletion, cause: string, refresh: string, repair: string)
    requires refresh != repair && cause in {refresh, repair} && Reports(c, cause, {refresh, repair})
    ensures c.OutcomeOf([refresh]) == Some(if cause == refresh then Success else Failure)
    ensures c.OutcomeOf([repair]) == Some(if cause == repair then Success else Failure)
    ensures c.OutcomeOf(Sort(StringLe, [refresh, repair])) == Some(Success)
  {
    var both := Sort(StringLe, [refresh, repair]);
    SortedPairIsStrict(refresh, repair);
    assert cause in Elements(both);
    assert Elements([refresh]) == {refresh} && Elements([repair]) == {repair};
    assert StrictlySorted(StringLe, [refresh]) && StrictlySorted(StringLe, [repair]);
  }

  lemma SideIsValidTwin(w: Workspace100World, protocol: Protocol)
    requires w.Valid() && w.Runnable()
    ensures ValidTwinSide(VerifiedSide(w, protocol), w.template.refreshAtom, w.template.repairAtom)
  {
    SideReports(w, protocol);
    SidePanel(w);
    ReportedMatrix(VerifiedSide(w, protocol), Cause(w), w.template.refreshAtom, w.template.repairAtom);
  }

  /** The target names the side, and the minimal witness its atom. */
  lemma SidePanel(w: Workspace100World)
    requires w.Valid() && w.Runnable()
    ensures PanelFor(w).targetFamily == if w.record.SelectorAligned() then ENVIRONMENT_FAMILY else POLICY_FAMILY
    ensures PanelFor(w).targetFamily == ENVIRONMENT_FAMILY <==> w.record.SelectorAligned()
    ensures PanelFor(w).targetFamily == POLICY_FAMILY <==> !w.record.SelectorAligned()
    ensures PanelFor(w).minimalWitnesses == [[Cause(w)]]
    ensures w.template.refreshAtom != w.template.repairAtom
  {
    RuntimePanel(w);
    TargetsDiffer();
  }

  lemma BaselineIsShared(l: Workspace100World, r: Workspace100World, protocol: Protocol)
    requires AreTwins(l, r) && l.Runnable()
    ensures SharedFailingBaseline(VerifiedSide(l, protocol), VerifiedSide(r, protocol))
  {
    TwinBaseline(l, r);
    assert Elements<string>([]) == {};
    RuntimeReceipt(l, []);
    RuntimeReceipt(r, []);
  }

  lemma TargetsAreBalanced(l: Workspace100World, r: Workspace100World, protocol: Protocol)
    requires AreTwins(l, r) && l.Runnable()
    ensures BalancedTargets(VerifiedSide(l, protocol), VerifiedSide(r, protocol))
  {
    SidePanel(l);
    SidePanel(r);
    FamiliesBalance(VerifiedSide(l, protocol), VerifiedSide(r, protocol));
  }

  lemma FamiliesBalance(a: VerifiedCompletion, b: VerifiedCompletion)
    requires a.panel.targetFamily == ENVIRONMENT_FAMILY || a.panel.targetFamily == POLICY_FAMILY
    requires b.panel.targetFamily == ENVIRONMENT_FAMILY || b.panel.targetFamily == POLICY_FAMILY
    requires a.panel.targetFamily != b.panel.targetFamily
    ensures BalancedTargets(a, b)
  {
  }

  lemma SideKeepsProbeNames(names: seq<string>, w: Workspace100World)
    ensures Apply(Apply(names, ProbeValue(w)), (p: ProbeObservation) => p.name) == names
  {
  }

  lemma SideIsValidMaterial(w: Workspace100World, manifest: Manifest, protocol: Protocol)
    requires ValidPanel(PanelFor(w), manifest.atoms) && manifest.probeNames == w.ProbeNames()
    ensures ValidCompletionMaterial(VerifiedSide(w, protocol), manifest, protocol)
  {
    SideKeepsProbeNames(w.ProbeNames(), w);
  }

  lemma TemplateDeclares(l: Workspace100World, r: Workspace100World)
    requires AreTwins(l, r)
    ensures ManifestMatchesTemplate(ManifestFor(l, r), l.template)
  {
  }

  lemma MaterialNames(l: Workspace100World, r: Workspace100World, protocol: Protocol, m: PairMaterial)
    requires m == MaterialFor(l, r, protocol)
    ensures m.pairId == protocol.ids.pairId((l.commitment, r.commitment)) && m.manifest.taskId == l.record.taskId
    ensures m.templateId == l.record.templateId && m.split == l.template.split && m.manifest == ManifestFor(l, r)
    ensures m.left == VerifiedSide(l, protocol) && m.right == VerifiedSide(r, protocol)
  {
  }

  lemma PanelIsValid(w: Workspace100World, atoms: seq<Atom>)
    requires w.Valid() && w.Runnable() && atoms == w.Atoms()
    ensures ValidPanel(PanelFor(w), atoms)
  {
    RuntimePanel(w);
  }

  lemma SidesMakePair(m: PairMaterial, protocol: Protocol, l: Workspace100World, r: Workspace100World)
    requires m.left == VerifiedSide(l, protocol) && m.right == VerifiedSide(r, protocol)
    requires m.manifest.Valid() && m.manifest.candidateCommitments == [l.commitment, r.commitment]
    requires m.taskId == m.manifest.taskId && m.pairId == protocol.ids.pairId((l.commitment, r.commitment))
    requires m.split == protocol.templates(m.templateId).split
    requires ManifestMatchesTemplate(m.manifest, protocol.templates(m.templateId))
    requires ValidCompletionMaterial(m.left, m.manifest, protocol)
      && ValidCompletionMaterial(m.right, m.manifest, protocol)
    requires protocol.ids.episodeId(l.commitment) != protocol.ids.episodeId(r.commitment)
    ensures ValidPairMaterial(m, protocol)
  {
  }

  lemma PairMaterialIsValid(l: Workspace100World, r: Workspace100World, protocol: Protocol)
    requires DeclaredTwins(l, r)
    requires protocol.templates(l.record.templateId) == l.template
    requires protocol.ids.episodeId(l.commitment) != protocol.ids.episodeId(r.commitment)
    ensures ValidPairMaterial(MaterialFor(l, r, protocol), protocol)
  {
    var m, manifest := MaterialFor(l, r, protocol), ManifestFor(l, r);
    TwinsShareDeclaration(l, r);
    ManifestIsValid(l, r);
    TemplateDeclares(l, r);
    PanelIsValid(l, manifest.atoms);
    PanelIsValid(r, manifest.atoms);
    SideIsValidMaterial(l, manifest, protocol);
    SideIsValidMaterial(r, manifest, protocol);
    MaterialNames(l, r, protocol, m);
    SidesMakePair(m, protocol, l, r);
  }

  /** End to end: any two complementary records that pass the source validators
      and share their payload yield material that passes every check on twins. */
  lemma TwinsYieldGoodMaterial(l: Workspace100World, r: Workspace100World, protocol: Protocol)
    requires DeclaredTwins(l, r)
    requires protocol.templates(l.record.templateId) == l.template
    requires protocol.ids.episodeId(l.commitment) != protocol.ids.episodeId(r.commitment)
    ensures GoodTwins(MaterialFor(l, r, protocol), protocol)
    ensures TwinFacts(MaterialFor(l, r, protocol), l.template)
  {
    PairMaterialIsValid(l, r, protocol);
    TwinsAreValidMaterial(l, r, protocol);
    GoodTwinsHaveFacts(MaterialFor(l, r, protocol), protocol);
  }

  lemma TwinsAreValidMaterial(l: Workspace100World, r: Workspace100World, protocol: Protocol)
    requires DeclaredTwins(l, r)
    ensures ValidTwinMaterial(MaterialFor(l, r, protocol))
  {
    AtomsOfTemplate(l.template);
    ProbesOfTemplate(l.template);
    BaselineIsShared(l, r, protocol);
    ProbesDiffer(l, r, protocol);
    TargetsAreBalanced(l, r, protocol);
    SideIsValidTwin(l, protocol);
    SideIsValidTwin(r, protocol);
  }

  lemma ProbesDiffer(l: Workspace100World, r: Workspace100World, protocol: Protocol)
    requires DeclaredTwins(l, r)
    ensures OnlyEpochDiffers(VerifiedSide(l, protocol), VerifiedSide(r, protocol), l.template.epochProbe)
  {
    TwinProbes(l, r);
    SideReads(l, protocol);
    SideReads(r, protocol);
  }
}
