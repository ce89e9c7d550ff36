/** The candidate registry of src/witnessgap/identifiability.py:626-893. */
module Registry {
  import opened Model
  import opened Order
  import opened Subsets
  import opened Panels
  import opened Oracle
  import opened Attribution

  datatype ProbeWorld = ProbeWorld(
    finite: FiniteWorld,
    taskSchemaId: string,
    taskId: string,
    commitment: string,
    probeNames: seq<string>,
    stateChannels: seq<string>,
    probe: string -> Bytes)
  {
    function Contract(): (string, string, seq<Atom>, seq<string>, seq<string>) {
      (taskSchemaId, taskId, finite.atoms, probeNames, stateChannels)
    }
  }

  datatype WorldCandidate = WorldCandidate(
    worldId: string,
    commitment: string,
    panel: Panel,
    baselineTrace: Bytes,
    baselineOutcome: Outcome,
    probes: seq<ProbeObservation>)

  datatype CandidateRegistry = CandidateRegistry(manifest: Manifest, candidates: seq<WorldCandidate>)

  datatype RegistryError =
    | InvalidFamily
    | InvalidWorld(error: WorldError)
    | UndeclaredRead
    | DuplicateCommitments
    | InvalidManifest

  datatype AmbiguityWitness = AmbiguityWitness(
    leftWorldId: string, leftTargetFamily: TargetFamily,
    rightWorldId: string, rightTargetFamily: TargetFamily)

  datatype AttributionVerdict = AttributionVerdict(
    diagnosis: Diagnosis,
    compatibleWorldIds: seq<string>,
    ambiguity: Option<AmbiguityWitness>)

  datatype LookupError = NotBound | NoWorldMatches | UnknownWorld | InvalidRequest

  // ---------- building ----------

  ghost function CandidateOf(w: ProbeWorld): WorldCandidate {
    WorldCandidate(
      w.finite.worldId,
      w.commitment,
      PanelOf(w.finite.atoms, FirstReplays(w.finite)),
      FirstReplays(w.finite)({}).trace,
      FirstReplays(w.finite)({}).outcome,
      ProbesOf(w))
  }

  function ProbesOf(w: ProbeWorld): seq<ProbeObservation> {
    Apply(w.probeNames, (name: string) => ProbeObservation(name, w.probe(name)))
  }

  function Commitments(worlds: seq<ProbeWorld>): seq<string> {
    Apply(worlds, (w: ProbeWorld) => w.commitment)
  }

  function WorldIds(worlds: seq<ProbeWorld>): seq<string> {
    Apply(worlds, (w: ProbeWorld) => w.finite.worldId)
  }

  ghost predicate WellBehaved(w: ProbeWorld) {
    && Admissible(w.finite.atoms) && w.finite.Steady()
    && FirstReplays(w.finite)({}).outcome == Failure
    && forall s :: s in AllSubsets(AtomNames(w.finite.atoms)) ==>
         Repeats(w.finite, s) && DeclaredReads(w, s)
  }

  predicate OnlyDeclared(channels: seq<string>, result: ReplayResult) {
    forall channel :: channel in result.stateReads ==> channel in channels
  }

  predicate DeclaredReads(w: ProbeWorld, s: Witness) {
    match w.finite.replay(Elements(s), 0)
    case Some(x) => OnlyDeclared(w.stateChannels, x)
    case None => true
  }

  ghost predicate ValidFamily(worlds: seq<ProbeWorld>) {
    && worlds != [] && StrictlySorted(StringLe, WorldIds(worlds))
    && worlds[0].taskSchemaId != "" && worlds[0].taskId != ""
    && StrictlySorted(StringLe, worlds[0].probeNames)
    && StrictlySorted(StringLe, worlds[0].stateChannels)
    && forall i :: 0 <= i < |worlds| ==> worlds[i].Contract() == worlds[0].Contract()
  }

  function ManifestOf(worlds: seq<ProbeWorld>): Manifest
    requires worlds != []
  {
    Manifest(
      worlds[0].taskSchemaId, worlds[0].taskId, worlds[0].finite.atoms, worlds[0].probeNames,
      worlds[0].stateChannels, Sort(StringLe, Commitments(worlds)))
  }

  /** The receipts of a panel read what the replays of all subsets read. */
  lemma ReceiptsRead(w: ProbeWorld, receipts: seq<ReplayReceipt>)
    requires forall s :: s in AllSubsets(AtomNames(w.finite.atoms)) ==> Repeats(w.finite, s)
    requires receipts == Apply(AllSubsets(AtomNames(w.finite.atoms)), FullReceipt(w.finite))
    ensures (forall x :: x in receipts ==> OnlyDeclared(w.stateChannels, x.result))
      <==> forall s :: s in AllSubsets(AtomNames(w.finite.atoms)) ==> DeclaredReads(w, s)
  {
    var subsets := AllSubsets(AtomNames(w.finite.atoms));
    forall i | 0 <= i < |subsets|
      ensures DeclaredReads(w, subsets[i]) <==> OnlyDeclared(w.stateChannels, receipts[i].result)
    {
      assert receipts[i] == FullReceipt(w.finite)(subsets[i]);
      assert subsets[i] in subsets && Repeats(w.finite, subsets[i]);
    }
    forall s | s in subsets && forall x :: x in receipts ==> OnlyDeclared(w.stateChannels, x.result)
      ensures DeclaredReads(w, s)
    {
      var i :| 0 <= i < |subsets| && subsets[i] == s;
      assert receipts[i] in receipts;
    }
    forall x | x in receipts && forall s :: s in subsets ==> DeclaredReads(w, s)
      ensures OnlyDeclared(w.stateChannels, x.result)
    {
      var i :| 0 <= i < |receipts| && receipts[i] == x;
      assert subsets[i] in subsets;
    }
  }

  /** `_validated_panel` */
  method ValidatedPanel(w: ProbeWorld) returns (r: Result<Panel, RegistryError>)
    ensures r.Ok? <==> WellBehaved(w)
    ensures r.Ok? ==> r.value == ExactPanel(w)
  {
    var panel := EnumerateRepairPanel(w.finite);
    if panel.Err? {
      return Err(InvalidWorld(panel.error));
    }
    ReceiptsRead(w, panel.value.receipts);
    if exists receipt :: receipt in panel.value.receipts && !OnlyDeclared(w.stateChannels, receipt.result) {
      return Err(UndeclaredRead);
    }
    r := Ok(panel.value.Shown());
  }

  ghost predicate AllWellBehaved(worlds: seq<ProbeWorld>) {
    worlds == [] || (AllWellBehaved(worlds[..|worlds| - 1]) && WellBehaved(worlds[|worlds| - 1]))
  }

  lemma {:induction false} AllWellBehavedMeans(worlds: seq<ProbeWorld>)
    ensures AllWellBehaved(worlds) <==> forall w :: w in worlds ==> WellBehaved(w)
  {
    if worlds != [] {
      var last := worlds[|worlds| - 1];
      AllWellBehavedMeans(worlds[..|worlds| - 1]);
      assert worlds == worlds[..|worlds| - 1] + [last];
    }
  }

  ghost function ExactPanel(w: ProbeWorld): Panel {
    PanelOf(w.finite.atoms, FirstReplays(w.finite))
  }

  method ReplayFamily(worlds: seq<ProbeWorld>) returns (r: Result<seq<Panel>, RegistryError>)
    ensures r.Ok? <==> AllWellBehaved(worlds)
    ensures r.Ok? ==> r.value == Appended(worlds, ExactPanel)
  {
    var panels: seq<Panel> := [];
    for i := 0 to |worlds|
      invariant AllWellBehaved(worlds[..i]) && panels == Appended(worlds[..i], ExactPanel)
    {
      AppendedNext(worlds, ExactPanel, i);
      WellBehavedNext(worlds, i);
      var panel := ValidatedPanel(worlds[i]);
      if panel.Err? {
        SomeWorldFails(worlds, i);
        return Err(panel.error);
      }
      panels := panels + [panel.value];
    }
    assert worlds[..|worlds|] == worlds;
    r := Ok(panels);
  }

  lemma WellBehavedNext(worlds: seq<ProbeWorld>, i: nat)
    requires i < |worlds|
    ensures AllWellBehaved(worlds[..i + 1]) <==> AllWellBehaved(worlds[..i]) && WellBehaved(worlds[i])
  {
    assert worlds[..i + 1][..i] == worlds[..i];
  }

  lemma SomeWorldFails(worlds: seq<ProbeWorld>, i: nat)
    requires i < |worlds| && !WellBehaved(worlds[i])
    ensures !AllWellBehaved(worlds)
  {
    AllWellBehavedMeans(worlds);
    assert worlds[i] in worlds;
  }

  /** Pairs every world with its panel (the second loop of `build`). */
  method AssembleCandidates(worlds: seq<ProbeWorld>, panels: seq<Panel>) returns (candidates: seq<WorldCandidate>)
    requires panels == Appended(worlds, ExactPanel)
    ensures candidates == Appended(worlds, CandidateOf)
  {
    candidates := [];
    AppendedIsApply(worlds, ExactPanel);
    for i := 0 to |worlds|
      invariant candidates == Appended(worlds[..i], CandidateOf)
    {
      AppendedNext(worlds, CandidateOf, i);
      var candidate := Assemble(worlds[i], panels[i]);
      candidates := candidates + [candidate];
    }
    assert worlds[..|worlds|] == worlds;
  }

  method Assemble(w: ProbeWorld, panel: Panel) returns (c: WorldCandidate)
    requires panel == ExactPanel(w)
    ensures c == CandidateOf(w)
  {
    BaselineOfPanel(w.finite.atoms, FirstReplays(w.finite));
    var baseline := panel.ReceiptFor([]).value;
    c := WorldCandidate(w.finite.worldId, w.commitment, panel, baseline.trace, baseline.outcome, ProbesOf(w));
  }

  predicate FamilyCheck(worlds: seq<ProbeWorld>)
    ensures FamilyCheck(worlds) <==> ValidFamily(worlds)
  {
    && worlds != [] && SortedUnique(WorldIds(worlds))
    && worlds[0].taskSchemaId != "" && worlds[0].taskId != ""
    && SortedUnique(worlds[0].probeNames) && SortedUnique(worlds[0].stateChannels)
    && SameContracts(worlds)
  }

  /** `CandidateRegistry.build` accepts exactly the well-formed families and
      keeps one exact panel per world, in the order given. */
  method Build(worlds: seq<ProbeWorld>) returns (r: Result<CandidateRegistry, RegistryError>)
    ensures r.Ok? <==>
      && ValidFamily(worlds)
      && (forall w :: w in worlds ==> WellBehaved(w))
      && Distinct(Commitments(worlds))
      && worlds[0].finite.atoms != [] && ManifestOf(worlds).NamesFit()
    ensures r.Ok? ==> r.value == CandidateRegistry(ManifestOf(worlds), Apply(worlds, CandidateOf))
    ensures r.Ok? ==> r.value.manifest.Valid()
  {
    if !FamilyCheck(worlds) {
      return Err(InvalidFamily);
    }
    var panels := ReplayFamily(worlds);
    AllWellBehavedMeans(worlds);
    if panels.Err? {
      return Err(panels.error);
    }
    DistinctCardinality(Commitments(worlds));
    if |Elements(Commitments(worlds))| != |worlds| {
      return Err(DuplicateCommitments);
    }
    if worlds[0].finite.atoms == [] || !ManifestOf(worlds).NamesFit() {
      return Err(InvalidManifest);
    }
    ManifestIsValid(worlds);
    var candidates := AssembleCandidates(worlds, panels.value);
    AppendedIsApply(worlds, CandidateOf);
    r := Ok(CandidateRegistry(ManifestOf(worlds), candidates));
  }

  predicate SameContracts(worlds: seq<ProbeWorld>) {
    forall i :: 0 <= i < |worlds| ==> worlds[i].Contract() == worlds[0].Contract()
  }

  lemma BaselineOfPanel(atoms: seq<Atom>, world: World)
    ensures PanelOf(atoms, world).ReceiptFor([]) == Some(Receipt([], world({}).trace, world({}).outcome))
  {
    var names := AtomNames(atoms);
    AllSubsetsLeads(names);
    assert Elements<string>([]) == {};
    ReceiptsAreComplete(names, AllSubsets(names), world, []);
  }

  lemma ManifestIsValid(worlds: seq<ProbeWorld>)
    requires ValidFamily(worlds) && Distinct(Commitments(worlds))
    requires worlds[0].finite.atoms != [] && ManifestOf(worlds).NamesFit()
    requires WellBehaved(worlds[0])
    ensures ManifestOf(worlds).Valid()
  {
    var commitments := Commitments(worlds);
    StringsAreOrdered();
    SortSorts(StringLe, commitments);
    DistinctPermutation(commitments, Sort(StringLe, commitments));
    SameMultiset(commitments, Sort(StringLe, commitments));
  }

  // ---------- observing and attributing ----------

  function Available(probes: seq<ProbeObservation>): map<string, Bytes> {
    if probes == [] then map[]
    else
      var last := probes[|probes| - 1];
      Available(probes[..|probes| - 1])[last.name := last.value]
  }

  function AsCompletion(c: WorldCandidate): Completion {
    Completion(c.commitment, c.panel, Available(c.probes))
  }

  /** `_is_compatible` */
  predicate IsCompatible(c: WorldCandidate, e: Evidence) {
    && c.baselineTrace == e.trace && c.baselineOutcome == e.outcome
    && (forall p :: p in e.probes ==>
          p.name in Available(c.probes) && Available(c.probes)[p.name] == p.value)
    && (forall o :: o in e.interventions ==> Shows(c.panel, o.interventions, o.trace, o.outcome))
  }

  function FindCandidate(candidates: seq<WorldCandidate>, worldId: string): (r: Option<WorldCandidate>)
    ensures r.Some? ==> r.value in candidates && r.value.worldId == worldId
  {
    if candidates == [] then None
    else if candidates[0].worldId == worldId then Some(candidates[0])
    else FindCandidate(candidates[1..], worldId)
  }

  function SortedUniqueTuples(s: seq<Witness>): bool {
    |Elements(s)| == |s| && s == Sort(TupleLe, s)
  }

  /** The checks of `observe` on a request. */
  predicate RequestCheck(c: WorldCandidate, probes: seq<string>, interventions: seq<Witness>) {
    && SortedUnique(probes) && (forall name :: name in probes ==> name in Available(c.probes))
    && (forall w :: w in interventions ==> w != [] && SortedUnique(w))
    && SortedUniqueTuples(interventions)
    && forall w :: w in interventions ==> c.panel.ReceiptFor(w).Some?
  }

  /** `observe`; every refusal is an `Err`. */
  function Observe(r: CandidateRegistry, worldId: string, probes: seq<string>, interventions: seq<Witness>)
    : Result<Evidence, LookupError>
  {
    var found := FindCandidate(r.candidates, worldId);
    if found.None? then Err(UnknownWorld)
    else
      var c := found.value;
      if !RequestCheck(c, probes, interventions) then Err(InvalidRequest)
      else Ok(Evidence(
        r.manifest, r.manifest.CoverageDigest(), c.baselineTrace, c.baselineOutcome,
        Apply(probes, ProbeReading(c)),
        Apply(interventions, ReceiptReading(c))))
  }

  function ProbeReading(c: WorldCandidate): string -> ProbeObservation {
    name => ProbeObservation(name, if name in Available(c.probes) then Available(c.probes)[name] else [])
  }

  function ReceiptReading(c: WorldCandidate): Witness -> InterventionObservation {
    w => match c.panel.ReceiptFor(w)
         case Some(k) => InterventionObservation(w, k.trace, k.outcome)
         case None => InterventionObservation(w, [], Failure)
  }

  function CandidateProfile(c: WorldCandidate): TargetFamily {
    c.panel.targetFamily
  }

  function Fits(e: Evidence): WorldCandidate -> bool {
    c => IsCompatible(c, e)
  }

  function WorldId(c: WorldCandidate): string {
    c.worldId
  }

  /** The body of `attribute` once the compatible candidates are known. */
  function VerdictFor(compatible: seq<WorldCandidate>): AttributionVerdict
    requires compatible != []
  {
    var ids := Apply(compatible, WorldId);
    var left := compatible[0];
    var profile := left.panel.targetFamily;
    var profiles := Apply(compatible, CandidateProfile);
    OtherExists(compatible, CandidateProfile);
    if |Elements(profiles)| > 1 then
      var right := FirstOther(compatible[1..], CandidateProfile, profile).value;
      AttributionVerdict(AMBIGUOUS, ids, Some(AmbiguityWitness(
        left.worldId, profile, right.worldId, right.panel.targetFamily)))
    else if profile == [] then
      AttributionVerdict(Diagnosis(NotIdentifiable, None, Some(NoRepairInDeclaredAlgebra)), ids, None)
    else
      var kind :=
        if |profile| == 1 && |profile[0]| == 1 then IdentifiedSingleton
        else if |profile| == 1 then IdentifiedCompound
        else AlternativeMinimalRepairs;
      AttributionVerdict(Diagnosis(kind, Some(profile), None), ids, None)
  }

  /** `attribute` */
  function Attribute(r: CandidateRegistry, e: Evidence): Result<AttributionVerdict, LookupError> {
    if e.registry != r.manifest || e.coverage != r.manifest.CoverageDigest() then Err(NotBound)
    else
      var compatible := Filter(r.candidates, Fits(e));
      if compatible == [] then Err(NoWorldMatches) else Ok(VerdictFor(compatible))
  }

  ghost predicate ExactCandidate(atoms: seq<Atom>, c: WorldCandidate) {
    && Genuine(atoms, AsCompletion(c))
    && Shows(c.panel, [], c.baselineTrace, c.baselineOutcome)
    && c.baselineOutcome == Failure
  }

  /** A registry as `Build` returns it. */
  ghost predicate ExactRegistry(r: CandidateRegistry) {
    && r.manifest.Valid()
    && forall c :: c in r.candidates ==> ExactCandidate(r.manifest.atoms, c)
  }

  lemma BuiltRegistryIsExact(worlds: seq<ProbeWorld>)
    requires ValidFamily(worlds) && Distinct(Commitments(worlds))
    requires worlds[0].finite.atoms != [] && ManifestOf(worlds).NamesFit()
    requires forall w :: w in worlds ==> WellBehaved(w)
    ensures ExactRegistry(CandidateRegistry(ManifestOf(worlds), Apply(worlds, CandidateOf)))
  {
    ManifestIsValid(worlds);
    var candidates := Apply(worlds, CandidateOf);
    forall c | c in candidates ensures ExactCandidate(ManifestOf(worlds).atoms, c) {
      var i :| 0 <= i < |worlds| && candidates[i] == c;
      var world := FirstReplays(worlds[i].finite);
      assert worlds[i] in worlds && worlds[i].Contract() == worlds[0].Contract();
      BaselineOfPanel(worlds[i].finite.atoms, world);
      assert world({}).outcome == Failure && c.panel == PanelOf(ManifestOf(worlds).atoms, world);
    }
  }

  /** The compatible candidates are the matching completions, in order. */
  lemma CompatibleCandidates(atoms: seq<Atom>, candidates: seq<WorldCandidate>, e: Evidence)
    requires forall c :: c in candidates ==> ExactCandidate(atoms, c)
    ensures Apply(Filter(candidates, Fits(e)), AsCompletion) == Compatible(Apply(candidates, AsCompletion), e)
  {
    ApplyFilter(candidates, AsCompletion, Fits(e), (c: Completion) => Matches(c, e));
  }

  ghost predicate Disagree(compatible: seq<WorldCandidate>, a: AmbiguityWitness) {
    exists left, right ::
      && left in compatible && right in compatible
      && a == AmbiguityWitness(
           left.worldId, left.panel.targetFamily, right.worldId, right.panel.targetFamily)
      && left.panel.targetFamily != right.panel.targetFamily
  }

  lemma AmbiguousVerdict(compatible: seq<WorldCandidate>)
    requires compatible != [] && |Elements(Apply(compatible, CandidateProfile))| > 1
    ensures var v := VerdictFor(compatible);
      v.diagnosis == AMBIGUOUS && v.ambiguity.Some? && Disagree(compatible, v.ambiguity.value)
  {
    OtherExists(compatible, CandidateProfile);
    var right := FirstOther(compatible[1..], CandidateProfile, CandidateProfile(compatible[0])).value;
    assert compatible[0] in compatible && right in compatible;
  }

  lemma DefiniteVerdict(atoms: seq<Atom>, compatible: seq<WorldCandidate>)
    requires compatible != [] && |Elements(Apply(compatible, CandidateProfile))| <= 1
    requires StrictlySorted(StringLe, AtomNames(atoms)) && Genuine(atoms, AsCompletion(compatible[0]))
    ensures VerdictFor(compatible).diagnosis == DefiniteFor(CandidateProfile(compatible[0]))
    ensures VerdictFor(compatible).ambiguity.None?
  {
    var profile := CandidateProfile(compatible[0]);
    GenuineFamilyShape(atoms, AsCompletion(compatible[0]));
    assert profile != [] ==> profile[0] in profile;
  }

  /** The verdict on a compatible set is the licensed one, and an ambiguity is
      always witnessed by two compatible worlds that disagree. */
  lemma VerdictIsLicensed(atoms: seq<Atom>, compatible: seq<WorldCandidate>)
    requires compatible != [] && StrictlySorted(StringLe, AtomNames(atoms))
    requires Genuine(atoms, AsCompletion(compatible[0]))
    ensures var v := VerdictFor(compatible);
      && Licensed(Apply(compatible, CandidateProfile), v.diagnosis)
      && (v.diagnosis == AMBIGUOUS <==> v.ambiguity.Some?)
      && (v.ambiguity.Some? ==> Disagree(compatible, v.ambiguity.value))
  {
    var profiles := Apply(compatible, CandidateProfile);
    ManyProfiles(profiles);
    if |Elements(profiles)| > 1 {
      AmbiguousVerdict(compatible);
    } else {
      DefiniteVerdict(atoms, compatible);
    }
  }

  /** The verdict is the licensed one, names the compatible worlds, and shows a
      disagreement among them iff it is ambiguous. */
  ghost predicate LicensedVerdict(r: CandidateRegistry, e: Evidence, v: AttributionVerdict) {
    && LicensedBy(Apply(r.candidates, AsCompletion), e, v.diagnosis)
    && v.compatibleWorldIds == Apply(Filter(r.candidates, Fits(e)), WorldId)
    && (v.diagnosis == AMBIGUOUS <==> v.ambiguity.Some?)
    && (v.ambiguity.Some? ==> Disagree(Filter(r.candidates, Fits(e)), v.ambiguity.value))
  }

  lemma VerdictNamesWorlds(compatible: seq<WorldCandidate>)
    requires compatible != []
    ensures VerdictFor(compatible).compatibleWorldIds == Apply(compatible, WorldId)
  {
  }

  lemma ProfilesOfCompletions(compatible: seq<WorldCandidate>)
    ensures Apply(Apply(compatible, AsCompletion), ProfileOf) == Apply(compatible, CandidateProfile)
  {
  }

  lemma VerdictForIsLicensed(r: CandidateRegistry, e: Evidence)
    requires ExactRegistry(r) && Filter(r.candidates, Fits(e)) != []
    ensures LicensedVerdict(r, e, VerdictFor(Filter(r.candidates, Fits(e))))
  {
    var compatible := Filter(r.candidates, Fits(e));
    CompatibleCandidates(r.manifest.atoms, r.candidates, e);
    assert compatible[0] in compatible;
    VerdictIsLicensed(r.manifest.atoms, compatible);
    VerdictNamesWorlds(compatible);
    ProfilesOfCompletions(compatible);
  }

  /** `attribute` issues exactly the verdict its compatible set licenses, and
      refuses bound evidence only if no world matches. */
  lemma AttributeIsLicensed(r: CandidateRegistry, e: Evidence)
    requires ExactRegistry(r) && e.registry == r.manifest && e.coverage == r.manifest.CoverageDigest()
    ensures var answer, matching := Attribute(r, e), Compatible(Apply(r.candidates, AsCompletion), e);
      && (answer.Err? <==> matching == []) && (answer.Err? ==> answer.error == NoWorldMatches)
      && (answer.Ok? ==> LicensedVerdict(r, e, answer.value))
  {
    CompatibleCandidates(r.manifest.atoms, r.candidates, e);
    if Filter(r.candidates, Fits(e)) != [] {
      VerdictForIsLicensed(r, e);
    }
  }

  lemma ProbeReadingsMatch(c: WorldCandidate, probes: seq<string>)
    requires forall name :: name in probes ==> name in Available(c.probes)
    ensures forall p :: p in Apply(probes, ProbeReading(c)) ==>
      p.name in Available(c.probes) && Available(c.probes)[p.name] == p.value
  {
    var readings := Apply(probes, ProbeReading(c));
    forall p | p in readings ensures p.name in probes && p == ProbeReading(c)(p.name) {
      var i :| 0 <= i < |readings| && readings[i] == p;
      assert probes[i] in probes;
    }
  }

  lemma ReceiptReadingsMatch(c: WorldCandidate, interventions: seq<Witness>)
    requires forall w :: w in interventions ==> c.panel.ReceiptFor(w).Some?
    ensures forall o :: o in Apply(interventions, ReceiptReading(c)) ==>
      Shows(c.panel, o.interventions, o.trace, o.outcome)
  {
    var readings := Apply(interventions, ReceiptReading(c));
    forall o | o in readings ensures o.interventions in interventions && o == ReceiptReading(c)(o.interventions) {
      var i :| 0 <= i < |readings| && readings[i] == o;
      assert interventions[i] in interventions;
    }
  }

  /** What is observed of a world is true of it. */
  lemma ObservationsMatch(r: CandidateRegistry, worldId: string, probes: seq<string>, interventions: seq<Witness>)
    requires ExactRegistry(r) && Observe(r, worldId, probes, interventions).Ok?
    ensures var truth := FindCandidate(r.candidates, worldId).value;
      var e := Observe(r, worldId, probes, interventions).value;
      truth in r.candidates && Matches(AsCompletion(truth), e)
  {
    var truth := FindCandidate(r.candidates, worldId).value;
    ProbeReadingsMatch(truth, probes);
    ReceiptReadingsMatch(truth, interventions);
  }

  lemma SortedTuplesTest(s: seq<Witness>)
    ensures SortedUniqueTuples(s) <==> StrictlySorted(TupleLe, s)
  {
    DistinctCardinality(s);
    TuplesAreOrdered();
    SortSorts(TupleLe, s);
    if Sorted(TupleLe, s) {
      SortFixesSorted(TupleLe, s);
    }
  }

  /** A genuine panel holds a receipt for exactly the declared subsets. */
  lemma ReceiptsAreDeclared(atoms: seq<Atom>, c: Completion, w: Witness)
    requires StrictlySorted(StringLe, AtomNames(atoms)) && Genuine(atoms, c)
    ensures c.panel.ReceiptFor(w).Some? <==> IsSubsetTuple(AtomNames(atoms), w)
  {
    var names := AtomNames(atoms);
    var world: World :| world({}).outcome == Failure && c.panel == PanelOf(atoms, world);
    AllSubsetsCanonical(names);
    if w in AllSubsets(names) {
      ReceiptsAreComplete(names, AllSubsets(names), world, w);
    }
    if c.panel.ReceiptFor(w).Some? {
      var k := c.panel.ReceiptFor(w).value;
      var i :| 0 <= i < |c.panel.receipts| && c.panel.receipts[i] == k;
      assert AllSubsets(names)[i] == w;
    }
  }

  /** Sorted, declared and non-empty: what can be asked of a world. */
  ghost predicate Askable(atoms: seq<Atom>, c: WorldCandidate, probes: seq<string>, interventions: seq<Witness>) {
    && StrictlySorted(StringLe, probes) && (forall name :: name in probes ==> name in Available(c.probes))
    && StrictlySorted(TupleLe, interventions)
    && forall w :: w in interventions ==> w != [] && IsSubsetTuple(AtomNames(atoms), w)
  }

  lemma ReadingsNameRequests(c: WorldCandidate, probes: seq<string>, interventions: seq<Witness>)
    ensures Apply(Apply(probes, ProbeReading(c)), (p: ProbeObservation) => p.name) == probes
    ensures Apply(Apply(interventions, ReceiptReading(c)), (o: InterventionObservation) => o.interventions)
      == interventions
  {
  }

  /** The tests on a tuple hold exactly if it names declared atoms, in order. */
  ghost function TestedRightly(atoms: seq<Atom>, c: WorldCandidate): Witness -> bool {
    (w: Witness) => SortedUnique(w) && c.panel.ReceiptFor(w).Some? <==> IsSubsetTuple(AtomNames(atoms), w)
  }

  lemma TestsAskable(atoms: seq<Atom>, c: WorldCandidate, probes: seq<string>, interventions: seq<Witness>)
    requires forall w :: w in interventions ==> TestedRightly(atoms, c)(w)
    ensures RequestCheck(c, probes, interventions) <==> Askable(atoms, c, probes, interventions)
  {
    SortedTuplesTest(interventions);
    forall w | w in interventions
      ensures SortedUnique(w) && c.panel.ReceiptFor(w).Some? <==> IsSubsetTuple(AtomNames(atoms), w)
    {
      assert TestedRightly(atoms, c)(w);
    }
  }

  /** The checks accept exactly the askable requests. */
  lemma RequestIsAskable(atoms: seq<Atom>, c: WorldCandidate, probes: seq<string>, interventions: seq<Witness>)
    requires StrictlySorted(StringLe, AtomNames(atoms)) && Genuine(atoms, AsCompletion(c))
    ensures RequestCheck(c, probes, interventions) <==> Askable(atoms, c, probes, interventions)
  {
    forall w | w in interventions ensures TestedRightly(atoms, c)(w) {
      ReceiptsAreDeclared(atoms, AsCompletion(c), w);
    }
    TestsAskable(atoms, c, probes, interventions);
  }

  /** `observe` answers exactly the well-formed requests about a known world,
      and reports exactly what was asked, in that order. */
  lemma ObserveAnswersExactly(r: CandidateRegistry, worldId: string, probes: seq<string>, interventions: seq<Witness>)
    requires ExactRegistry(r)
    ensures var truth, seen := FindCandidate(r.candidates, worldId), Observe(r, worldId, probes, interventions);
      && (seen.Ok? <==> truth.Some? && Askable(r.manifest.atoms, truth.value, probes, interventions))
      && (seen.Ok? ==> Apply(seen.value.probes, (p: ProbeObservation) => p.name) == probes)
      && (seen.Ok? ==>
            Apply(seen.value.interventions, (o: InterventionObservation) => o.interventions) == interventions)
  {
    var truth := FindCandidate(r.candidates, worldId);
    if truth.Some? {
      RequestIsAskable(r.manifest.atoms, truth.value, probes, interventions);
      ReadingsNameRequests(truth.value, probes, interventions);
    }
  }

  /** Observing a registered world and attributing what was seen never fails,
      and a definite answer is that world's own target family. */
  lemma ObservedWorldIsAttributed(
      r: CandidateRegistry, worldId: string, probes: seq<string>, interventions: seq<Witness>)
    requires ExactRegistry(r) && Observe(r, worldId, probes, interventions).Ok?
    ensures var truth := FindCandidate(r.candidates, worldId).value;
      var verdict := Attribute(r, Observe(r, worldId, probes, interventions).value);
      && verdict.Ok?
      && (verdict.value.diagnosis == AMBIGUOUS
          || verdict.value.diagnosis == DefiniteFor(CandidateProfile(truth)))
  {
    var truth := FindCandidate(r.candidates, worldId).value;
    var e := Observe(r, worldId, probes, interventions).value;
    ObservationsMatch(r, worldId, probes, interventions);
    var family := Apply(r.candidates, AsCompletion);
    var i :| 0 <= i < |r.candidates| && r.candidates[i] == truth;
    assert family[i] == AsCompletion(truth);
    assert AsCompletion(truth) in Compatible(family, e);
    AttributeIsLicensed(r, e);
    VerdictsAreSound(family, e, Attribute(r, e).value.diagnosis, AsCompletion(truth));
  }
}
