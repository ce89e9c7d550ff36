/** Compatibility-set reasoning: which completions an evidence record leaves
    open, and the strongest verdict that set licenses
    (src/witnessgap/identifiability.py, src/witnessgap/verifier.py). */
module Attribution {
  import opened Model
  import opened Order
  import opened Subsets
  import opened Repairs
  import opened Panels

  // ---------- manifests and evidence; a digest is represented by its preimage ----------

  datatype Manifest = Manifest(
    taskSchemaId: string,
    taskId: string,
    atoms: seq<Atom>,
    probeNames: seq<string>,
    stateChannels: seq<string>,
    candidateCommitments: seq<string>)
  {
    function CoverageDigest(): Coverage {
      Coverage(stateChannels, taskSchemaId)
    }

    /** Every identifier is short enough for the core. */
    predicate NamesFit() {
      && CoreName(taskSchemaId) && CoreName(taskId)
      && CoreNames(AtomNames(atoms)) && CoreNames(TargetNames(atoms))
      && CoreNames(probeNames) && CoreNames(stateChannels)
    }

    /** `RegistryManifest.validate`, without digest syntax. */
    ghost predicate Valid() {
      && NamesFit()
      && 0 < |atoms| <= MAX_ATOMS
      && StrictlySorted(StringLe, AtomNames(atoms))
      && StrictlySorted(StringLe, probeNames)
      && StrictlySorted(StringLe, stateChannels)
      && candidateCommitments != [] && StrictlySorted(StringLe, candidateCommitments)
    }
  }

  /** `RegistryManifest.validate`, as it is computed. */
  predicate ManifestCheck(m: Manifest)
    ensures ManifestCheck(m) <==> m.Valid()
  {
    && m.NamesFit()
    && 0 < |m.atoms| <= MAX_ATOMS
    && SortedUnique(AtomNames(m.atoms)) && SortedUnique(m.probeNames) && SortedUnique(m.stateChannels)
    && m.candidateCommitments != [] && SortedUnique(m.candidateCommitments)
  }

  datatype Coverage = Coverage(stateChannels: seq<string>, taskSchemaId: string)

  datatype ProbeObservation = ProbeObservation(name: string, value: Bytes)

  datatype InterventionObservation = InterventionObservation(
    interventions: Witness, trace: Bytes, outcome: Outcome)

  datatype Evidence = Evidence(
    registry: Manifest,
    coverage: Coverage,
    trace: Bytes,
    outcome: Outcome,
    probes: seq<ProbeObservation>,
    interventions: seq<InterventionObservation>)

  datatype VerdictKind =
    | IdentifiedSingleton
    | IdentifiedCompound
    | AlternativeMinimalRepairs
    | EffectOnly
    | NotIdentifiable

  datatype UnknownReason =
    | AmbiguousWorlds
    | BudgetExhausted
    | InterventionUnfulfilled
    | MissingState
    | NoRepairInDeclaredAlgebra
    | ReplayDiverged

  /** What a verdict says about the cause. */
  datatype Diagnosis = Diagnosis(
    kind: VerdictKind, targetFamily: Option<TargetFamily>, unknownReason: Option<UnknownReason>)

  const AMBIGUOUS := Diagnosis(NotIdentifiable, None, Some(AmbiguousWorlds))

  // ---------- one completion, one evidence record ----------

  datatype Completion = Completion(commitment: string, panel: Panel, probes: map<string, Bytes>)

  predicate Shows(panel: Panel, interventions: Witness, trace: Bytes, outcome: Outcome) {
    var receipt := panel.ReceiptFor(interventions);
    receipt.Some? && receipt.value.trace == trace && receipt.value.outcome == outcome
  }

  /** Every observation in the evidence is one this completion produces. */
  predicate Matches(c: Completion, e: Evidence) {
    && Shows(c.panel, [], e.trace, e.outcome)
    && (forall p :: p in e.probes ==> p.name in c.probes && c.probes[p.name] == p.value)
    && (forall o :: o in e.interventions ==> Shows(c.panel, o.interventions, o.trace, o.outcome))
  }

  function Compatible(family: seq<Completion>, e: Evidence): seq<Completion> {
    Filter(family, (c: Completion) => Matches(c, e))
  }

  /** The panel is what exhaustive replay of some failing episode yields. */
  ghost predicate Genuine(atoms: seq<Atom>, c: Completion) {
    exists world: World :: world({}).outcome == Failure && c.panel == PanelOf(atoms, world)
  }

  // ---------- the verdict that a compatible set licenses ----------

  /** The kind of a definite target family. */
  function KindOf(family: TargetFamily): VerdictKind {
    if |family| > 1 then AlternativeMinimalRepairs
    else if |family| == 1 && |family[0]| > 1 then IdentifiedCompound
    else IdentifiedSingleton
  }

  function DefiniteFor(family: TargetFamily): Diagnosis {
    if family == [] then Diagnosis(NotIdentifiable, None, Some(NoRepairInDeclaredAlgebra))
    else Diagnosis(KindOf(family), Some(family), None)
  }

  /** The specification of every verdict on a list of causal profiles: definite
      exactly when they are all the same. */
  ghost predicate Licensed(profiles: seq<TargetFamily>, d: Diagnosis) {
    && profiles != []
    && if forall p :: p in profiles ==> p == profiles[0]
       then d == DefiniteFor(profiles[0])
       else d == AMBIGUOUS
  }

  function ProfileOf(c: Completion): TargetFamily {
    c.panel.targetFamily
  }

  /** The verdict that evidence `e` licenses over a completion family. */
  ghost predicate LicensedBy(family: seq<Completion>, e: Evidence, d: Diagnosis) {
    Licensed(Apply(Compatible(family, e), ProfileOf), d)
  }

  lemma ProfilesOf(cs: seq<Completion>, p: TargetFamily)
    ensures p in Apply(cs, ProfileOf) <==> exists c :: c in cs && ProfileOf(c) == p
  {
    if c :| c in cs && ProfileOf(c) == p {
      var i :| 0 <= i < |cs| && cs[i] == c;
      assert Apply(cs, ProfileOf)[i] == p;
    }
  }

  /** Verdicts depend on which completions are compatible, not on their order. */
  lemma LicensedUnique(a: seq<Completion>, b: seq<Completion>, d: Diagnosis, d': Diagnosis)
    requires Elements(a) == Elements(b)
    requires Licensed(Apply(a, ProfileOf), d) && Licensed(Apply(b, ProfileOf), d')
    ensures d == d'
  {
    forall p ensures p in Apply(a, ProfileOf) <==> p in Apply(b, ProfileOf) {
      ProfilesOf(a, p);
      ProfilesOf(b, p);
      assert forall c :: c in a <==> c in Elements(b);
    }
    assert Apply(a, ProfileOf)[0] in Apply(b, ProfileOf);
    assert Apply(b, ProfileOf)[0] in Apply(a, ProfileOf);
  }

  /** A definite verdict is true of every completion the evidence leaves open,
      and an ambiguous one is backed by two of them. */
  lemma VerdictsAreSound(family: seq<Completion>, e: Evidence, d: Diagnosis, truth: Completion)
    requires LicensedBy(family, e, d)
    requires truth in family && Matches(truth, e)
    ensures d != AMBIGUOUS <==> forall c :: c in family && Matches(c, e) ==> ProfileOf(c) == ProfileOf(truth)
    ensures d != AMBIGUOUS ==> d == DefiniteFor(ProfileOf(truth))
  {
    var compatible := Compatible(family, e);
    var profiles := Apply(compatible, ProfileOf);
    assert truth in compatible;
    ProfilesOf(compatible, ProfileOf(truth));
    if forall c :: c in compatible ==> ProfileOf(c) == ProfileOf(truth) {
      forall p | p in profiles ensures p == ProfileOf(truth) {
        ProfilesOf(compatible, p);
      }
    } else {
      var c :| c in compatible && ProfileOf(c) != ProfileOf(truth);
      ProfilesOf(compatible, ProfileOf(c));
    }
  }

  /** `len(profiles) > 1` on the set of profiles, as the source tests it. */
  lemma ManyProfiles(profiles: seq<TargetFamily>)
    requires profiles != []
    ensures |Elements(profiles)| > 1 <==> exists p :: p in profiles[1..] && p != profiles[0]
    ensures |Elements(profiles)| > 1 <==> !(forall p :: p in profiles ==> p == profiles[0])
  {
    assert profiles == [profiles[0]] + profiles[1..];
    assert profiles[0] in Elements(profiles);
    if p :| p in profiles[1..] && p != profiles[0] {
      CardinalityOfSubset({profiles[0], p}, Elements(profiles));
    } else {
      assert Elements(profiles) == {profiles[0]};
    }
  }

  /** `next(item for item in items if profile(item) != family)` */
  function FirstOther<T>(items: seq<T>, profile: T -> TargetFamily, family: TargetFamily): (r: Option<T>)
    ensures r.Some? ==> r.value in items && profile(r.value) != family
    ensures r.None? ==> forall x :: x in items ==> profile(x) == family
  {
    if items == [] then None
    else if profile(items[0]) != family then Some(items[0])
    else FirstOther(items[1..], profile, family)
  }

  /** The search for a disagreeing item finds one exactly if there are several profiles. */
  lemma OtherExists<T>(items: seq<T>, profile: T -> TargetFamily)
    requires items != []
    ensures |Elements(Apply(items, profile))| > 1 <==> FirstOther(items[1..], profile, profile(items[0])).Some?
  {
    var profiles := Apply(items, profile);
    ManyProfiles(profiles);
    assert profiles[1..] == Apply(items[1..], profile);
    if p :| p in profiles[1..] && p != profiles[0] {
      var i :| 0 <= i < |profiles[1..]| && profiles[1..][i] == p;
      assert items[1..][i] in items[1..];
    } else {
      assert forall x :: x in items[1..] ==> profile(x) in profiles[1..];
    }
  }

  /** The target family of a genuine panel is a sorted antichain of sorted,
      non-empty target sets. */
  lemma GenuineFamilyShape(atoms: seq<Atom>, c: Completion)
    requires StrictlySorted(StringLe, AtomNames(atoms)) && Genuine(atoms, c)
    ensures forall t :: t in c.panel.targetFamily ==> t != [] && StrictlySorted(StringLe, t)
    ensures StrictlySorted(TupleLe, c.panel.targetFamily)
    ensures forall a, b :: a in c.panel.targetFamily && b in c.panel.targetFamily ==> !(Elements(a) < Elements(b))
  {
    var world: World :| world({}).outcome == Failure && c.panel == PanelOf(atoms, world);
    FamilyTupleShape(AtomTargets(atoms), Succeeds(world));
  }

  lemma FamilyTupleShape(targets: map<string, string>, ok: set<string> -> bool)
    requires !ok({})
    ensures var family := FamilyTuple(TargetSets(targets, ok));
      && StrictlySorted(TupleLe, family)
      && (forall t :: t in family ==> t != [] && StrictlySorted(StringLe, t))
      && (forall a, b :: a in family && b in family ==> !(Elements(a) < Elements(b)))
  {
    var sets := TargetSets(targets, ok);
    var family := FamilyTuple(sets);
    TargetSetsShape(targets, ok);
    StringsAreOrdered();
    TuplesAreOrdered();
    forall t | t in family
      ensures t != [] && StrictlySorted(StringLe, t) && Elements(t) in sets
    {
      assert t in Elements(family);
      var s :| s in sets && SortedSet(StringLe, s) == t;
      assert t == [] ==> s == {};
    }
  }

  // ---------- complete intervention evidence ----------

  /** The evidence reveals the outcome of every non-empty intervention subset. */
  ghost predicate RevealsEverySubset(atoms: seq<Atom>, e: Evidence) {
    forall w :: w in AllSubsets(AtomNames(atoms)) && w != [] ==>
      exists o :: o in e.interventions && o.interventions == w
  }

  lemma {:induction false} ReceiptsAreComplete(names: seq<string>, subsets: seq<Witness>, world: World, w: Witness)
    requires w in subsets
    ensures FirstReceipt(Apply(subsets, ReceiptOf(world)), w) == Some(ReceiptOf(world)(w))
  {
    var receipts := Apply(subsets, ReceiptOf(world));
    assert receipts == [ReceiptOf(world)(subsets[0])] + Apply(subsets[1..], ReceiptOf(world));
    if subsets[0] != w {
      assert receipts[1..] == Apply(subsets[1..], ReceiptOf(world));
      ReceiptsAreComplete(names, subsets[1..], world, w);
    }
  }

  /** Panels that record the same outcomes have the same target family. */
  lemma OutcomesDetermineFamily(atoms: seq<Atom>, a: World, b: World)
    requires StrictlySorted(StringLe, AtomNames(atoms))
    requires forall w :: w in AllSubsets(AtomNames(atoms)) ==> a(Elements(w)).outcome == b(Elements(w)).outcome
    ensures PanelOf(atoms, a).targetFamily == PanelOf(atoms, b).targetFamily
  {
    var names := AtomNames(atoms);
    var targets := AtomTargets(atoms);
    TargetsCoverNames(atoms);
    forall s | s <= targets.Keys ensures a(s).outcome == b(s).outcome {
      SubsetsAreTuples(names, s);
    }
    assert Successes(Succeeds(a), targets.Keys) == Successes(Succeeds(b), targets.Keys);
  }

  lemma RevealedOutcome(atoms: seq<Atom>, e: Evidence, c: Completion, world: World, w: Witness)
    requires c.panel == PanelOf(atoms, world) && Matches(c, e)
    requires w in AllSubsets(AtomNames(atoms))
    ensures w == [] ==> world(Elements(w)).outcome == e.outcome
    ensures forall o :: o in e.interventions && o.interventions == w ==> world(Elements(w)).outcome == o.outcome
  {
    ReceiptsAreComplete(AtomNames(atoms), AllSubsets(AtomNames(atoms)), world, w);
  }

  lemma SameOutcomesSameProfile(atoms: seq<Atom>, e: Evidence, c: Completion, c': Completion)
    requires StrictlySorted(StringLe, AtomNames(atoms)) && RevealsEverySubset(atoms, e)
    requires Genuine(atoms, c) && Matches(c, e)
    requires Genuine(atoms, c') && Matches(c', e)
    ensures ProfileOf(c) == ProfileOf(c')
  {
    var names := AtomNames(atoms);
    var a: World :| a({}).outcome == Failure && c.panel == PanelOf(atoms, a);
    var b: World :| b({}).outcome == Failure && c'.panel == PanelOf(atoms, b);
    forall w | w in AllSubsets(names) ensures a(Elements(w)).outcome == b(Elements(w)).outcome {
      RevealedOutcome(atoms, e, c, a, w);
      RevealedOutcome(atoms, e, c', b, w);
    }
    OutcomesDetermineFamily(atoms, a, b);
  }

  /** With every non-empty subset revealed, no verdict is ambiguous: the target
      family is a function of the panel's outcomes alone. */
  lemma FullEvidenceDecides(atoms: seq<Atom>, family: seq<Completion>, e: Evidence, d: Diagnosis)
    requires StrictlySorted(StringLe, AtomNames(atoms))
    requires forall c :: c in family ==> Genuine(atoms, c)
    requires RevealsEverySubset(atoms, e)
    requires LicensedBy(family, e, d)
    ensures d != AMBIGUOUS
  {
    var compatible := Compatible(family, e);
    var profiles := Apply(compatible, ProfileOf);
    forall i | 0 <= i < |compatible| ensures ProfileOf(compatible[i]) == ProfileOf(compatible[0]) {
      assert compatible[i] in compatible && compatible[0] in compatible;
      SameOutcomesSameProfile(atoms, e, compatible[i], compatible[0]);
    }
    assert forall p :: p in profiles ==> p == profiles[0];
  }

  // ---------- accumulating evidence ----------

  ghost predicate Extends(e: Evidence, e': Evidence) {
    && e'.trace == e.trace && e'.outcome == e.outcome
    && (forall p :: p in e.probes ==> p in e'.probes)
    && (forall o :: o in e.interventions ==> o in e'.interventions)
  }

  /** A run of ever richer evidence about one true completion. */
  ghost predicate ObservationRun(truth: Completion, run: seq<Evidence>) {
    && (forall i :: 0 <= i < |run| ==> Matches(truth, run[i]))
    && (forall i :: 0 < i < |run| ==> Extends(run[i - 1], run[i]))
  }

  lemma {:induction false} CompatibleShrinks(
      family: seq<Completion>, truth: Completion, run: seq<Evidence>, i: nat, j: nat)
    requires ObservationRun(truth, run) && i <= j < |run|
    ensures Elements(Compatible(family, run[j])) <= Elements(Compatible(family, run[i]))
    ensures truth in family ==> truth in Compatible(family, run[j])
    decreases j - i
  {
    if i < j {
      CompatibleShrinks(family, truth, run, i, j - 1);
      assert Extends(run[j - 1], run[j]);
    }
  }

  /** Ambiguous before index `k`, and always `settled` from there on. */
  ghost predicate SettlesAt(k: nat, verdicts: seq<Diagnosis>, settled: Diagnosis) {
    && k <= |verdicts|
    && (forall i :: 0 <= i < k ==> verdicts[i] == AMBIGUOUS)
    && (forall i :: k <= i < |verdicts| ==> verdicts[i] == settled)
  }

  /** Over any run of observations of one true completion the diagnosis changes
      at most once, from ambiguous to the truth. */
  lemma DiagnosisChangesOnce(
      family: seq<Completion>, truth: Completion, run: seq<Evidence>, verdicts: seq<Diagnosis>)
    requires truth in family && ObservationRun(truth, run)
    requires |verdicts| == |run|
    requires forall i :: 0 <= i < |run| ==> LicensedBy(family, run[i], verdicts[i])
    ensures exists k: nat :: SettlesAt(k, verdicts, DefiniteFor(ProfileOf(truth)))
  {
    var k: nat := 0;
    while k < |run| && verdicts[k] == AMBIGUOUS
      invariant 0 <= k <= |run|
      invariant forall i :: 0 <= i < k ==> verdicts[i] == AMBIGUOUS
    {
      k := k + 1;
    }
    forall i | k <= i < |run| ensures verdicts[i] == DefiniteFor(ProfileOf(truth)) {
      CompatibleShrinks(family, truth, run, k, i);
      CompatibleShrinks(family, truth, run, k, k);
      VerdictsAreSound(family, run[k], verdicts[k], truth);
      VerdictsAreSound(family, run[i], verdicts[i], truth);
      forall c | c in family && Matches(c, run[i])
        ensures ProfileOf(c) == ProfileOf(truth)
      {
        assert c in Elements(Compatible(family, run[i]));
        assert c in Elements(Compatible(family, run[k]));
      }
    }
    assert SettlesAt(k, verdicts, DefiniteFor(ProfileOf(truth)));
  }
}
