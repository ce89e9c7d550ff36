/** Verified twin materials and the four evidence views projected from them
    (src/witnessgap/workspace100/views.py). */
module Views {
  import opened Model
  import opened Order
  import opened Panels
  import opened Attribution
  import opened Records
  import opened Generation
  import opened Runtime

  datatype ViewKind = TraceOnly | OwnerProbe | EpochProbe | RefreshReceipt

  const VIEW_ORDER := [TraceOnly, OwnerProbe, EpochProbe, RefreshReceipt]

  lemma FourViews<T>(f: ViewKind -> T)
    ensures Apply(VIEW_ORDER, f) == [f(TraceOnly), f(OwnerProbe), f(EpochProbe), f(RefreshReceipt)]
  {
  }

  const ENVIRONMENT_FAMILY: TargetFamily := [[ENVIRONMENT]]
  const POLICY_FAMILY: TargetFamily := [[POLICY]]

  datatype VerifiedCompletion = VerifiedCompletion(
    episodeId: string, commitment: string, snapshot: string, panel: Panel, probes: seq<ProbeObservation>)
  {
    /** `probe_for`; `None` stands for `KeyError`. */
    function ProbeFor(name: string): Option<Bytes> {
      FirstProbe(probes, name)
    }

    function OutcomeOf(interventions: Witness): Option<Outcome> {
      match panel.ReceiptFor(interventions)
      case None => None
      case Some(receipt) => Some(receipt.outcome)
    }

    function TraceOf(interventions: Witness): Option<Bytes> {
      match panel.ReceiptFor(interventions)
      case None => None
      case Some(receipt) => Some(receipt.trace)
    }
  }

  function FirstProbe(probes: seq<ProbeObservation>, name: string): (value: Option<Bytes>)
    ensures value.Some? ==> ProbeObservation(name, value.value) in probes
    ensures value.None? ==> forall p :: p in probes ==> p.name != name
  {
    if probes == [] then None
    else if probes[0].name == name then Some(probes[0].value)
    else FirstProbe(probes[1..], name)
  }

  datatype PairMaterial = PairMaterial(
    pairId: string,
    taskId: string,
    templateId: TemplateId,
    split: Split,
    manifest: Manifest,
    left: VerifiedCompletion,
    right: VerifiedCompletion)

  // ---------- names that the manifest declares ----------

  /** `_epoch_probe_name` */
  function EpochProbeName(probeNames: seq<string>): Option<string> {
    var names := Filter(probeNames, (n: string) => n != OWNER_PROBE);
    if |names| == 1 && OWNER_PROBE in probeNames then Some(names[0]) else None
  }

  /** `_atom_for_target` */
  function AtomForTarget(atoms: seq<Atom>, target: string): Option<string> {
    var matching := Filter(atoms, (a: Atom) => a.target == target);
    if |matching| == 1 then Some(matching[0].name) else None
  }

  function TemplateAtoms(t: TemplateRecord): seq<Atom> {
    Sort(AtomLe, [Atom(t.refreshAtom, ENVIRONMENT), Atom(t.repairAtom, POLICY)])
  }

  function TemplateProbes(t: TemplateRecord): seq<string> {
    Sort(StringLe, [t.epochProbe, OWNER_PROBE])
  }

  /** `_validate_manifest_template`, for the declarations that the model keeps. */
  predicate ManifestMatchesTemplate(manifest: Manifest, t: TemplateRecord) {
    && manifest.taskSchemaId == t.taskSchemaId
    && manifest.atoms == TemplateAtoms(t)
    && manifest.probeNames == TemplateProbes(t)
    && manifest.stateChannels == Sort(StringLe, [t.selectionChannel, t.resolverChannel])
  }

  lemma FilterPair<T(!new)>(a: T, b: T, keep: T -> bool)
    ensures Filter([a, b], keep) == (if keep(a) then [a] else []) + (if keep(b) then [b] else [])
  {
    assert [a, b][1..] == [b] && [b][1..] == [];
    assert Filter([b], keep) == if keep(b) then [b] else [];
  }

  lemma PairOfAtoms(a: Atom, b: Atom)
    ensures Elements(AtomNames([a, b])) == {a.name, b.name}
    ensures AtomTargets([a, b]) == map[a.name := a.target, b.name := b.target]
    ensures AtomNames([a, b]) == [a.name, b.name]
  {
    assert [a, b][..1] == [a] && [a][..0] == [];
    assert AtomTargets([a]) == map[a.name := a.target];
    assert AtomNames([a, b]) == [a.name, b.name];
  }

  lemma AtomForTargetOfPair(a: Atom, b: Atom, target: string)
    requires a.target == target && b.target != target
    ensures AtomForTarget([a, b], target) == Some(a.name) && AtomForTarget([b, a], target) == Some(a.name)
  {
    var keep := (x: Atom) => x.target == target;
    FilterPair(a, b, keep);
    FilterPair(b, a, keep);
  }

  lemma TargetsDiffer()
    ensures ENVIRONMENT != POLICY && ENVIRONMENT_FAMILY != POLICY_FAMILY
  {
    assert |ENVIRONMENT| != |POLICY|;
    assert ENVIRONMENT_FAMILY[0][0] == ENVIRONMENT && POLICY_FAMILY[0][0] == POLICY;
  }

  /** The two atoms of a template, however their names sort. */
  lemma AtomsOfTemplate(t: TemplateRecord)
    ensures var e, p := Atom(t.refreshAtom, ENVIRONMENT), Atom(t.repairAtom, POLICY);
      TemplateAtoms(t) == [e, p] || TemplateAtoms(t) == [p, e]
    ensures AtomForTarget(TemplateAtoms(t), ENVIRONMENT) == Some(t.refreshAtom)
    ensures AtomForTarget(TemplateAtoms(t), POLICY) == Some(t.repairAtom)
  {
    var e, p := Atom(t.refreshAtom, ENVIRONMENT), Atom(t.repairAtom, POLICY);
    TargetsDiffer();
    SortOfPair(AtomLe, e, p);
    AtomForTargetOfPair(e, p, ENVIRONMENT);
    AtomForTargetOfPair(p, e, POLICY);
  }

  lemma TemplateTargets(t: TemplateRecord)
    requires t.refreshAtom != t.repairAtom
    ensures Elements(AtomNames(TemplateAtoms(t))) == {t.refreshAtom, t.repairAtom}
    ensures t.refreshAtom in AtomTargets(TemplateAtoms(t))
      && AtomTargets(TemplateAtoms(t))[t.refreshAtom] == ENVIRONMENT
    ensures t.repairAtom in AtomTargets(TemplateAtoms(t)) && AtomTargets(TemplateAtoms(t))[t.repairAtom] == POLICY
  {
    var e, p := Atom(t.refreshAtom, ENVIRONMENT), Atom(t.repairAtom, POLICY);
    AtomsOfTemplate(t);
    if TemplateAtoms(t) == [e, p] {
      PairOfAtoms(e, p);
    } else {
      PairOfAtoms(p, e);
    }
  }

  lemma ProbesOfTemplate(t: TemplateRecord)
    requires t.epochProbe != OWNER_PROBE
    ensures EpochProbeName(TemplateProbes(t)) == Some(t.epochProbe)
  {
    SortOfPair(StringLe, t.epochProbe, OWNER_PROBE);
    FilterPair(t.epochProbe, OWNER_PROBE, (n: string) => n != OWNER_PROBE);
    FilterPair(OWNER_PROBE, t.epochProbe, (n: string) => n != OWNER_PROBE);
  }

  /** Sorting two names gives a strictly sorted list exactly if they differ. */
  lemma SortedPairIsStrict(a: string, b: string)
    ensures StrictlySorted(StringLe, Sort(StringLe, [a, b])) <==> a != b
    ensures Elements(Sort(StringLe, [a, b])) == {a, b}
  {
    SortOfPair(StringLe, a, b);
    StringsCompare(a, b);
    var sorted := Sort(StringLe, [a, b]);
    assert sorted == [sorted[0], sorted[1]];
  }

  // ---------- materials ----------

  /** The frozen catalogue and the identity functions in use. */
  datatype Protocol = Protocol(
    templates: TemplateId -> TemplateRecord,
    ids: Identities,
    digest: Evidence -> string)
  {
    /** Unequal evidence records have unequal digests. */
    ghost predicate Binding() {
      forall a, b :: digest(a) == digest(b) ==> a == b
    }
  }

  /** `VerifiedCompletionMaterial.validate` and its checks against the pair. */
  predicate ValidCompletionMaterial(c: VerifiedCompletion, manifest: Manifest, protocol: Protocol) {
    && c.episodeId == protocol.ids.episodeId(c.commitment)
    && ValidPanel(c.panel, manifest.atoms)
    && Apply(c.probes, (p: ProbeObservation) => p.name) == manifest.probeNames
  }

  /** `VerifiedPairMaterial.validate` */
  predicate ValidPairMaterial(m: PairMaterial, protocol: Protocol) {
    var template := protocol.templates(m.templateId);
    && ManifestCheck(m.manifest)
    && m.taskId == m.manifest.taskId
    && m.split == template.split
    && ManifestMatchesTemplate(m.manifest, template)
    && ValidCompletionMaterial(m.left, m.manifest, protocol)
    && ValidCompletionMaterial(m.right, m.manifest, protocol)
    && [m.left.commitment, m.right.commitment] == m.manifest.candidateCommitments
    && m.pairId == protocol.ids.pairId((m.left.commitment, m.right.commitment))
    && m.left.episodeId != m.right.episodeId
  }

  /** The matrix and witness checks on one twin. */
  predicate ValidTwinSide(c: VerifiedCompletion, refreshAtom: string, repairAtom: string) {
    var environment := c.panel.targetFamily == ENVIRONMENT_FAMILY;
    && c.panel.minimalWitnesses == [[if environment then refreshAtom else repairAtom]]
    && c.OutcomeOf([refreshAtom]) == Some(if environment then Success else Failure)
    && c.OutcomeOf([repairAtom]) == Some(if environment then Failure else Success)
    && c.OutcomeOf(Sort(StringLe, [refreshAtom, repairAtom])) == Some(Success)
  }

  predicate SharedFailingBaseline(left: VerifiedCompletion, right: VerifiedCompletion) {
    && left.OutcomeOf([]) == Some(Failure) && right.OutcomeOf([]) == Some(Failure)
    && left.TraceOf([]) == right.TraceOf([])
  }

  predicate OnlyEpochDiffers(left: VerifiedCompletion, right: VerifiedCompletion, epoch: string) {
    && left.ProbeFor(OWNER_PROBE).Some? && left.ProbeFor(OWNER_PROBE) == right.ProbeFor(OWNER_PROBE)
    && left.ProbeFor(epoch).Some? && right.ProbeFor(epoch).Some?
    && left.ProbeFor(epoch) != right.ProbeFor(epoch)
  }

  predicate BalancedTargets(left: VerifiedCompletion, right: VerifiedCompletion) {
    {left.panel.targetFamily, right.panel.targetFamily} == {ENVIRONMENT_FAMILY, POLICY_FAMILY}
  }

  /** `_validate_twin_material`; a missing lookup is a failed check. */
  predicate ValidTwinMaterial(m: PairMaterial) {
    var epoch := EpochProbeName(m.manifest.probeNames);
    var refreshAtom := AtomForTarget(m.manifest.atoms, ENVIRONMENT);
    var repairAtom := AtomForTarget(m.manifest.atoms, POLICY);
    && SharedFailingBaseline(m.left, m.right)
    && epoch.Some? && OnlyEpochDiffers(m.left, m.right, epoch.value)
    && BalancedTargets(m.left, m.right)
    && refreshAtom.Some? && repairAtom.Some?
    && ValidTwinSide(m.left, refreshAtom.value, repairAtom.value)
    && ValidTwinSide(m.right, refreshAtom.value, repairAtom.value)
  }

  // ---------- projection ----------

  function ProbesShown(m: PairMaterial, c: VerifiedCompletion, view: ViewKind): Option<seq<ProbeObservation>> {
    match view
    case OwnerProbe =>
      (match c.ProbeFor(OWNER_PROBE)
       case None => None
       case Some(value) => Some([ProbeObservation(OWNER_PROBE, value)]))
    case EpochProbe =>
      (match EpochProbeName(m.manifest.probeNames)
       case None => None
       case Some(name) =>
         match c.ProbeFor(name)
         case None => None
         case Some(value) => Some([ProbeObservation(name, value)]))
    case _ => Some([])
  }

  function ReceiptsShown(m: PairMaterial, c: VerifiedCompletion, view: ViewKind): Option<seq<InterventionObservation>> {
    match view
    case RefreshReceipt =>
      (match AtomForTarget(m.manifest.atoms, ENVIRONMENT)
       case None => None
       case Some(atom) =>
         match c.panel.ReceiptFor([atom])
         case None => None
         case Some(k) => Some([InterventionObservation(k.interventions, k.trace, k.outcome)]))
    case _ => Some([])
  }

  /** `_project_evidence`; `None` stands for a failed lookup. */
  function ProjectEvidence(m: PairMaterial, c: VerifiedCompletion, view: ViewKind): Option<Evidence> {
    var baseline := c.panel.ReceiptFor([]);
    var probes := ProbesShown(m, c, view);
    var receipts := ReceiptsShown(m, c, view);
    if baseline.None? || probes.None? || receipts.None? then None
    else Some(Evidence(
      m.manifest, m.manifest.CoverageDigest(), baseline.value.trace, baseline.value.outcome,
      probes.value, receipts.value))
  }

  predicate GoodTwins(m: PairMaterial, protocol: Protocol) {
    ValidPairMaterial(m, protocol) && ValidTwinMaterial(m)
  }

  /** What the validators establish about twins `m` of template `t`. */
  ghost predicate TwinFacts(m: PairMaterial, t: TemplateRecord) {
    && t.refreshAtom != t.repairAtom && t.epochProbe != OWNER_PROBE
    && EpochProbeName(m.manifest.probeNames) == Some(t.epochProbe)
    && AtomForTarget(m.manifest.atoms, ENVIRONMENT) == Some(t.refreshAtom)
    && SharedFailingBaseline(m.left, m.right)
    && OnlyEpochDiffers(m.left, m.right, t.epochProbe)
    && BalancedTargets(m.left, m.right)
    && ValidTwinSide(m.left, t.refreshAtom, t.repairAtom)
    && ValidTwinSide(m.right, t.refreshAtom, t.repairAtom)
  }

  lemma ManifestNames(manifest: Manifest, t: TemplateRecord)
    requires manifest.Valid() && ManifestMatchesTemplate(manifest, t)
    ensures t.refreshAtom != t.repairAtom && t.epochProbe != OWNER_PROBE
  {
    AtomsOfTemplate(t);
    PairOfAtoms(Atom(t.refreshAtom, ENVIRONMENT), Atom(t.repairAtom, POLICY));
    PairOfAtoms(Atom(t.repairAtom, POLICY), Atom(t.refreshAtom, ENVIRONMENT));
    SortedPairIsStrict(t.epochProbe, OWNER_PROBE);
  }

  lemma GoodTwinsHaveFacts(m: PairMaterial, protocol: Protocol)
    requires GoodTwins(m, protocol)
    ensures TwinFacts(m, protocol.templates(m.templateId))
  {
    var t := protocol.templates(m.templateId);
    ManifestNames(m.manifest, t);
    AtomsOfTemplate(t);
    ProbesOfTemplate(t);
  }

  predicate IsSide(c: VerifiedCompletion, m: PairMaterial) {
    c == m.left || c == m.right
  }

  // ---------- which view, which twin ----------

  /** `_validate_case_view`: the view an evidence record exposes. */
  predicate ExposesView(e: Evidence, t: TemplateRecord, view: ViewKind) {
    && e.outcome == Failure
    && match view
       case TraceOnly => e.probes == [] && e.interventions == []
       case OwnerProbe => |e.probes| == 1 && e.probes[0].name == OWNER_PROBE && e.interventions == []
       case EpochProbe => |e.probes| == 1 && e.probes[0].name == t.epochProbe && e.interventions == []
       case RefreshReceipt =>
         e.probes == [] && |e.interventions| == 1 && e.interventions[0].interventions == [t.refreshAtom]
  }

  lemma ViewsAreDisjoint(e: Evidence, t: TemplateRecord, v: ViewKind, v': ViewKind)
    requires t.epochProbe != OWNER_PROBE && ExposesView(e, t, v) && ExposesView(e, t, v')
    ensures v == v'
  {
  }

  /** What a view shows of one twin: the failing baseline, and the one probe or
      receipt that the view is for. */
  ghost predicate Shown(m: PairMaterial, t: TemplateRecord, c: VerifiedCompletion, view: ViewKind, e: Evidence) {
    && e.registry == m.manifest && e.coverage == m.manifest.CoverageDigest()
    && e.outcome == Failure && Some(e.trace) == c.TraceOf([])
    && match view
       case TraceOnly => e.probes == [] && e.interventions == []
       case OwnerProbe =>
         && e.interventions == [] && |e.probes| == 1
         && e.probes[0].name == OWNER_PROBE && Some(e.probes[0].value) == c.ProbeFor(OWNER_PROBE)
       case EpochProbe =>
         && e.interventions == [] && |e.probes| == 1
         && e.probes[0].name == t.epochProbe && Some(e.probes[0].value) == c.ProbeFor(t.epochProbe)
       case RefreshReceipt =>
         && e.probes == [] && |e.interventions| == 1
         && e.interventions[0].interventions == [t.refreshAtom]
         && Some(e.interventions[0].trace) == c.TraceOf([t.refreshAtom])
         && Some(e.interventions[0].outcome) == c.OutcomeOf([t.refreshAtom])
  }

  lemma ProjectionShows(m: PairMaterial, t: TemplateRecord, c: VerifiedCompletion, view: ViewKind)
    requires TwinFacts(m, t) && IsSide(c, m)
    ensures ProjectEvidence(m, c, view).Some?
    ensures Shown(m, t, c, view, ProjectEvidence(m, c, view).value)
    ensures ExposesView(ProjectEvidence(m, c, view).value, t, view)
  {
  }

  predicate Neutral(view: ViewKind) {
    view == TraceOnly || view == OwnerProbe
  }

  lemma OppositeTargets(m: PairMaterial)
    requires BalancedTargets(m.left, m.right)
    ensures m.left.panel.targetFamily == ENVIRONMENT_FAMILY <==> m.right.panel.targetFamily == POLICY_FAMILY
    ensures m.left.panel.targetFamily == POLICY_FAMILY <==> m.right.panel.targetFamily == ENVIRONMENT_FAMILY
    ensures m.left.panel.targetFamily != m.right.panel.targetFamily
  {
    TargetsDiffer();
    var families := {m.left.panel.targetFamily, m.right.panel.targetFamily};
    assert ENVIRONMENT_FAMILY in families && POLICY_FAMILY in families;
    assert m.left.panel.targetFamily in {ENVIRONMENT_FAMILY, POLICY_FAMILY};
    assert m.right.panel.targetFamily in {ENVIRONMENT_FAMILY, POLICY_FAMILY};
  }

  /** Evidence shown of one twin is also true of the other exactly under the
      neutral views. */
  lemma ShownOfOther(
      m: PairMaterial, t: TemplateRecord, c: VerifiedCompletion, c': VerifiedCompletion, view: ViewKind, e: Evidence)
    requires TwinFacts(m, t) && IsSide(c, m) && IsSide(c', m) && c != c'
    requires Shown(m, t, c, view, e)
    ensures Shown(m, t, c', view, e) <==> Neutral(view)
  {
    OppositeTargets(m);
  }

  lemma ShownIsUnique(
      m: PairMaterial, t: TemplateRecord, c: VerifiedCompletion, view: ViewKind, e: Evidence, e': Evidence)
    requires Shown(m, t, c, view, e) && Shown(m, t, c, view, e')
    ensures e == e'
  {
    if view == OwnerProbe || view == EpochProbe {
      assert e.probes == [e.probes[0]] && e'.probes == [e'.probes[0]];
    } else if view == RefreshReceipt {
      assert e.interventions == [e.interventions[0]] && e'.interventions == [e'.interventions[0]];
    }
  }

  /** Twins project to one evidence record under the neutral views and to two
      under the informative ones. */
  lemma TwinsDifferOnInformativeViews(m: PairMaterial, t: TemplateRecord, view: ViewKind)
    requires TwinFacts(m, t)
    ensures ProjectEvidence(m, m.left, view) == ProjectEvidence(m, m.right, view) <==> Neutral(view)
  {
    ProjectionShows(m, t, m.left, view);
    ProjectionShows(m, t, m.right, view);
    OppositeTargets(m);
    var left, right := ProjectEvidence(m, m.left, view).value, ProjectEvidence(m, m.right, view).value;
    ShownOfOther(m, t, m.left, m.right, view, left);
    if Neutral(view) {
      ShownIsUnique(m, t, m.right, view, left, right);
    }
  }
}
