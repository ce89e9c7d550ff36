/** From decoded twins to verified twin material: the source validators alone
    force every causal property that the views rely on
    (src/witnessgap/workspace100/runtime.py:416-464, views.py:719-780). */
module Twins {
  import opened Model
  import opened Order
  import opened Subsets
  import opened Panels
  import opened Attribution
  import opened Verifier
  import opened Records
  import opened Generation
  import opened Runtime
  import opened Views
  import opened SingleCause

  // ---------- a runtime world as a sealed source ----------

  function ReadChannels(artifact: ExecutionArtifact): seq<string> {
    Apply(artifact.stateReadLog, (r: StateRead) => r.channel)
  }

  /** One fresh run followed by artifact validation. */
  function Execute(w: Workspace100World, interventions: set<string>): Option<Execution> {
    match FreshRun(w, interventions)
    case Err(_) => None
    case Ok(a) =>
      match ValidateArtifact(w, a)
      case Err(_) => None
      case Ok(outcome) =>
        Some(Execution(Artifact(a.publicTrace, a.terminalState, ReadChannels(a), a.interventionLog), outcome))
  }

  function SourceOf(w: Workspace100World): Source {
    Source(w.commitment,
           (attempt: nat) => CoreName(w.template.refreshAtom) && CoreName(w.template.repairAtom),
           (interventions: set<string>, attempt: nat) => Execute(w, interventions),
           (name: string, attempt: nat) => w.Probe(name))
  }

  lemma ExecuteIs(w: Workspace100World, interventions: set<string>)
    requires w.Valid() && w.Runnable() && interventions <= w.Known()
    ensures ArtifactOf(w, interventions).Some?
    ensures var (a, outcome) := ArtifactOf(w, interventions).value;
      Execute(w, interventions)
      == Some(Execution(Artifact(a.publicTrace, a.terminalState, ReadChannels(a), LogOf(interventions)), outcome))
  {
    RunnableProduces(w, interventions);
    ExecuteOf(w, interventions);
  }

  lemma RunnableProduces(w: Workspace100World, interventions: set<string>)
    requires w.Valid() && w.Runnable() && interventions <= w.Known()
    ensures Recordable(w, interventions) && ArtifactOf(w, interventions).Some?
  {
    assert Recordable(w, interventions);
    ExecutionIsExact(w, interventions);
  }

  lemma ExecuteOf(w: Workspace100World, interventions: set<string>)
    requires interventions <= w.Known() && ArtifactOf(w, interventions).Some?
    ensures var (a, outcome) := ArtifactOf(w, interventions).value;
      Execute(w, interventions)
      == Some(Execution(Artifact(a.publicTrace, a.terminalState, ReadChannels(a), LogOf(interventions)), outcome))
  {
    OwnArtifactValidates(w, interventions);
  }

  lemma NamesAreKnown(w: Workspace100World)
    requires w.template.Valid()
    ensures w.Atoms() == TemplateAtoms(w.template)
    ensures StrictlySorted(StringLe, AtomNames(w.Atoms()))
    ensures Elements(AtomNames(w.Atoms())) == w.Known()
    ensures |w.Atoms()| == 2
  {
    var e, p := Atom(w.template.refreshAtom, ENVIRONMENT), Atom(w.template.repairAtom, POLICY);
    SortOfPair(AtomLe, e, p);
    StringsCompare(e.name, p.name);
    PairOfAtoms(e, p);
    PairOfAtoms(p, e);
  }

  lemma LogIsTuple(s: Witness)
    requires StrictlySorted(StringLe, s)
    ensures LogOf(Elements(s)) == s
  {
    StringsAreOrdered();
    SortedSetUnique(StringLe, Elements(s), s);
  }

  lemma ChannelsAreDeclared(w: Workspace100World, interventions: set<string>, c: string)
    requires ArtifactOf(w, interventions).Some?
    requires c in ReadChannels(ArtifactOf(w, interventions).value.0)
    ensures c in w.StateChannels()
  {
    SortedPairIsStrict(w.template.selectionChannel, w.template.resolverChannel);
    assert c in {w.template.selectionChannel, w.template.resolverChannel};
    assert c in Elements(w.StateChannels());
  }

  /** Every execution logs exactly what was asked and reads only what is declared. */
  lemma SourceFulfils(w: Workspace100World, s: Witness)
    requires w.Valid() && w.Runnable() && StrictlySorted(StringLe, s) && Elements(s) <= w.Known()
    ensures Fulfils(SourceOf(w), w.StateChannels(), s)
  {
    ExecuteIs(w, Elements(s));
    LogIsTuple(s);
    forall c | c in ReadChannels(ArtifactOf(w, Elements(s)).value.0) ensures c in w.StateChannels() {
      ChannelsAreDeclared(w, Elements(s), c);
    }
  }

  /** One atom decides the outcome of every subset. */
  lemma RuntimeDecides(w: Workspace100World)
    requires w.Valid() && w.Runnable()
    ensures Decides(Cause(w), WorldOf(SourceOf(w)), Elements(AtomNames(w.Atoms())))
    ensures WorldOf(SourceOf(w))({}).outcome == Failure
  {
    NamesAreKnown(w);
    forall s | s <= w.Known() ensures WorldOf(SourceOf(w))(s).outcome == Success <==> Cause(w) in s {
      SubsetDecides(w, s);
    }
    SubsetDecides(w, {});
  }

  lemma SubsetDecides(w: Workspace100World, s: set<string>)
    requires w.Valid() && w.Runnable() && s <= w.Known()
    ensures WorldOf(SourceOf(w))(s).outcome == Success <==> Cause(w) in s
  {
    ExecuteIs(w, s);
    ExecutionIsExact(w, s);
  }

  lemma RunnableIsAccepted(w: Workspace100World)
    requires w.Valid() && w.Runnable()
    ensures PanelAccepted(SourceOf(w), w.Atoms(), w.StateChannels())
  {
    var subsets := AllSubsets(AtomNames(w.Atoms()));
    NamesAreKnown(w);
    AllSubsetsCanonical(AtomNames(w.Atoms()));
    forall s | s in subsets ensures Fulfils(SourceOf(w), w.StateChannels(), s) {
      SourceFulfils(w, s);
    }
    AllFulfilMeans(SourceOf(w), w.StateChannels(), subsets);
    RuntimeDecides(w);
  }

  /** The run with every intervention needs every name. */
  lemma ExecutedIsRunnable(w: Workspace100World)
    requires Execute(w, w.Known()).Some?
    ensures w.Runnable()
  {
    assert Recordable(w, w.Known());
    assert w.template.refreshAtom in w.Known() && w.template.repairAtom in w.Known();
  }

  lemma AcceptedFulfils(source: Source, atoms: seq<Atom>, channels: seq<string>, s: Witness)
    requires PanelAccepted(source, atoms, channels) && s in AllSubsets(AtomNames(atoms))
    ensures source.execute(Elements(s), 0).Some?
  {
    AllFulfilMeans(source, channels, AllSubsets(AtomNames(atoms)));
    assert Fulfils(source, channels, s);
  }

  lemma AcceptedIsRunnable(w: Workspace100World)
    requires w.template.Valid() && PanelAccepted(SourceOf(w), w.Atoms(), w.StateChannels())
    ensures w.Runnable()
  {
    NamesAreKnown(w);
    SubsetsAreTuples(AtomNames(w.Atoms()), w.Known());
    AcceptedFulfils(SourceOf(w), w.Atoms(), w.StateChannels(), SortedSet(StringLe, w.Known()));
    ExecutedIsRunnable(w);
  }

  /** The independent verifier accepts a valid world exactly if the core can
      record its names. */
  lemma SourceIsAccepted(w: Workspace100World)
    requires w.Valid()
    ensures PanelAccepted(SourceOf(w), w.Atoms(), w.StateChannels()) <==> w.Runnable()
  {
    if w.Runnable() {
      RunnableIsAccepted(w);
    }
    if PanelAccepted(SourceOf(w), w.Atoms(), w.StateChannels()) {
      AcceptedIsRunnable(w);
    }
  }

  ghost function PanelFor(w: Workspace100World): Panel {
    PanelOf(w.Atoms(), WorldOf(SourceOf(w)))
  }

  /** Selector-aligned records are repaired by refreshing the environment, the
      others by correcting the policy; nothing smaller repairs either. */
  lemma RuntimePanel(w: Workspace100World)
    requires w.Valid() && w.Runnable()
    ensures PanelFor(w).minimalWitnesses == [[Cause(w)]]
    ensures PanelFor(w).targetFamily == if w.record.SelectorAligned() then ENVIRONMENT_FAMILY else POLICY_FAMILY
    ensures ValidPanel(PanelFor(w), w.Atoms())
  {
    NamesAreKnown(w);
    RuntimeDecides(w);
    SingleCausePanel(w.Atoms(), WorldOf(SourceOf(w)), Cause(w));
    TemplateTargets(w.template);
    ValidPanelsAreExact(PanelFor(w), w.Atoms());
  }

  lemma RuntimeReceipt(w: Workspace100World, s: Witness)
    requires w.Valid() && w.Runnable() && StrictlySorted(StringLe, s) && Elements(s) <= w.Known()
    ensures ArtifactOf(w, Elements(s)).Some?
    ensures var (a, outcome) := ArtifactOf(w, Elements(s)).value;
      PanelFor(w).ReceiptFor(s) == Some(Receipt(s, a.publicTrace, outcome))
  {
    NamesAreKnown(w);
    AllSubsetsCanonical(AtomNames(w.Atoms()));
    ExecuteIs(w, Elements(s));
    ReceiptsAreComplete(AtomNames(w.Atoms()), AllSubsets(AtomNames(w.Atoms())), WorldOf(SourceOf(w)), s);
  }

  // ---------- twins ----------

  /** Two completions of one task: complementary records that share everything
      but their initial state, in commitment order. */
  ghost predicate AreTwins(l: Workspace100World, r: Workspace100World) {
    && l.Valid() && r.Valid()
    && l.template == r.template && l.encode == r.encode && Faithful(l.encode)
    && SharedPayload(l.record) == SharedPayload(r.record)
    && (l.record.SelectorAligned() <==> !r.record.SelectorAligned())
    && StringLe(l.commitment, r.commitment) && l.commitment != r.commitment
  }

  /** Twins whose names the core accepts. */
  ghost predicate DeclaredTwins(l: Workspace100World, r: Workspace100World) {
    AreTwins(l, r) && l.Declarable()
  }

  /** `Workspace100SourceAdapter.decode` on an authored completion. */
  function Decoded(
    c: GeneratedCompletion, template: TemplateRecord, snapshot: string, encode: Encoder): Workspace100World
  {
    Workspace100World(c.record, template, c.commitment, snapshot, encode)
  }

  /** Every generated pair decodes to twins. */
  lemma GeneratedPairsAreTwins(
      pair: GeneratedPair, ids: Identities, template: TemplateRecord,
      leftSnapshot: string, rightSnapshot: string, encode: Encoder)
    requires ValidPair(pair, ids) && template.Valid() && Faithful(encode)
    requires template.templateId == pair.templateId && template.taskSchemaId == pair.left.record.taskSchemaId
    ensures AreTwins(
      Decoded(pair.left, template, leftSnapshot, encode), Decoded(pair.right, template, rightSnapshot, encode))
  {
    SharedPayloadMeans(pair.left.record, pair.right.record);
    SharedPayloadMeans(pair.right.record, pair.left.record);
  }

  /** `_manifest_for_worlds` */
  function ManifestFor(l: Workspace100World, r: Workspace100World): Manifest {
    Manifest(
      l.record.taskSchemaId, l.record.taskId, l.Atoms(), l.ProbeNames(), l.StateChannels(),
      [l.commitment, r.commitment])
  }

  /** `_world_declaration` agrees between twins. */
  lemma TwinsShareDeclaration(l: Workspace100World, r: Workspace100World)
    requires AreTwins(l, r)
    ensures r.record.taskSchemaId == l.record.taskSchemaId && r.record.taskId == l.record.taskId
    ensures r.Atoms() == l.Atoms() && r.ProbeNames() == l.ProbeNames() && r.StateChannels() == l.StateChannels()
  {
    SharedPayloadMeans(l.record, r.record);
  }

  /** What the record validators leave open about the manifest: it is valid
      exactly if the epoch probe is not named like the owner probe and the seven
      names it declares fit the core. */
  lemma ManifestIsValid(l: Workspace100World, r: Workspace100World)
    requires AreTwins(l, r)
    ensures ManifestFor(l, r).Valid() <==>
      && l.template.epochProbe != OWNER_PROBE
      && CoreName(l.record.taskSchemaId) && CoreName(l.record.taskId)
      && CoreName(l.template.refreshAtom) && CoreName(l.template.repairAtom) && CoreName(l.template.epochProbe)
      && CoreName(l.template.selectionChannel) && CoreName(l.template.resolverChannel)
  {
    NamesAreKnown(l);
    ProbeNamesAreSorted(l);
    ChannelsAreSorted(l);
    PairIsSorted(l.commitment, r.commitment);
    ManifestNamesFit(l, r);
  }

  lemma ManifestNamesFit(l: Workspace100World, r: Workspace100World)
    ensures ManifestFor(l, r).NamesFit() <==>
      && CoreName(l.record.taskSchemaId) && CoreName(l.record.taskId)
      && CoreName(l.template.refreshAtom) && CoreName(l.template.repairAtom) && CoreName(l.template.epochProbe)
      && CoreName(l.template.selectionChannel) && CoreName(l.template.resolverChannel)
  {
    SortedNamesFit(l.template.epochProbe, OWNER_PROBE);
    SortedNamesFit(l.template.selectionChannel, l.template.resolverChannel);
    SortedAtomsFit(Atom(l.template.refreshAtom, ENVIRONMENT), Atom(l.template.repairAtom, POLICY));
  }

  lemma SortedNamesFit(a: string, b: string)
    ensures CoreNames(Sort(StringLe, [a, b])) <==> CoreName(a) && CoreName(b)
  {
    SortOfPair(StringLe, a, b);
    assert CoreNames([a, b]) <==> CoreName([a, b][0]) && CoreName([a, b][1]);
    assert CoreNames([b, a]) <==> CoreName([b, a][0]) && CoreName([b, a][1]);
  }

  lemma SortedAtomsFit(a: Atom, b: Atom)
    requires CoreName(a.target) && CoreName(b.target)
    ensures CoreNames(TargetNames(Sort(AtomLe, [a, b])))
    ensures CoreNames(AtomNames(Sort(AtomLe, [a, b]))) <==> CoreName(a.name) && CoreName(b.name)
  {
    SortOfPair(AtomLe, a, b);
    var names := AtomNames(Sort(AtomLe, [a, b]));
    assert CoreNames(names) <==> CoreName(names[0]) && CoreName(names[1]);
  }

  /** A template that every record validator accepts although its epoch probe
      carries the owner probe's name. */
  const CLASHING := TemplateRecord(
    PublishDraft, Development, "schema", "goal", "alternate", "refresh", "repair_it", OWNER_PROBE,
    "selection", "resolver", "lookup", "publish", "published", "failed")

  const OVERLONG_NAME: string := seq(80, i => 'p')

  /** One whose epoch probe is merely longer than the core allows. */
  const OVERLONG := CLASHING.(epochProbe := OVERLONG_NAME)

  /** Such a template authors valid twins for which no manifest is valid. */
  lemma ClashingTemplateFails(
      v: VariantRecord, ids: Identities, leftSnapshot: string, rightSnapshot: string, encode: Encoder)
    requires v.Valid() && v.templateId == PublishDraft && ids.Binding() && Faithful(encode)
    ensures CLASHING.Valid()
    ensures var pair := PairOf(CLASHING, v, ids);
      var l := Decoded(pair.left, CLASHING, leftSnapshot, encode);
      var r := Decoded(pair.right, CLASHING, rightSnapshot, encode);
      AreTwins(l, r) && !ManifestFor(l, r).Valid()
  {
    AwkwardTemplatesAreValid();
    var pair := PairOf(CLASHING, v, ids);
    PairOfIsValid(CLASHING, v, ids);
    GeneratedPairsAreTwins(pair, ids, CLASHING, leftSnapshot, rightSnapshot, encode);
    ManifestIsValid(
      Decoded(pair.left, CLASHING, leftSnapshot, encode), Decoded(pair.right, CLASHING, rightSnapshot, encode));
  }

  lemma AwkwardTemplatesAreValid()
    ensures CLASHING.Valid() && OVERLONG.Valid() && OVERLONG.epochProbe != OWNER_PROBE && !CoreName(OVERLONG.epochProbe)
  {
    assert |"goal"| != |"alternate"| && |"refresh"| != |"repair_it"| && |"selection"| != |"resolver"|;
    assert |"lookup"| != |"publish"| && |"published"| != |"failed"|;
    assert |OVERLONG_NAME| == 80 && |OWNER_PROBE| == 15;
  }

  /** So does one with a name of 80 characters that clashes with nothing. */
  lemma OverlongNameFails(
      v: VariantRecord, ids: Identities, leftSnapshot: string, rightSnapshot: string, encode: Encoder)
    requires v.Valid() && v.templateId == PublishDraft && ids.Binding() && Faithful(encode)
    ensures OVERLONG.Valid() && OVERLONG.epochProbe != OWNER_PROBE
    ensures var pair := PairOf(OVERLONG, v, ids);
      var l := Decoded(pair.left, OVERLONG, leftSnapshot, encode);
      var r := Decoded(pair.right, OVERLONG, rightSnapshot, encode);
      AreTwins(l, r) && l.Runnable() && !ManifestFor(l, r).Valid()
  {
    AwkwardTemplatesAreValid();
    var pair := PairOf(OVERLONG, v, ids);
    PairOfIsValid(OVERLONG, v, ids);
    GeneratedPairsAreTwins(pair, ids, OVERLONG, leftSnapshot, rightSnapshot, encode);
    ManifestIsValid(
      Decoded(pair.left, OVERLONG, leftSnapshot, encode), Decoded(pair.right, OVERLONG, rightSnapshot, encode));
  }

  lemma ProbeNamesAreSorted(w: Workspace100World)
    ensures StrictlySorted(StringLe, w.ProbeNames()) <==> w.template.epochProbe != OWNER_PROBE
  {
    SortedPairIsStrict(w.template.epochProbe, OWNER_PROBE);
  }

  lemma ChannelsAreSorted(w: Workspace100World)
    requires w.template.Valid()
    ensures StrictlySorted(StringLe, w.StateChannels())
  {
    SortedPairIsStrict(w.template.selectionChannel, w.template.resolverChannel);
  }

  lemma PairIsSorted(a: string, b: string)
    requires StringLe(a, b) && a != b
    ensures StrictlySorted(StringLe, [a, b])
  {
  }

  lemma TwinBaseline(l: Workspace100World, r: Workspace100World)
    requires AreTwins(l, r) && l.Runnable()
    ensures ArtifactOf(l, {}).Some? && ArtifactOf(r, {}).Some?
    ensures ArtifactOf(l, {}).value.0.publicTrace == ArtifactOf(r, {}).value.0.publicTrace
    ensures ArtifactOf(l, {}).value.1 == Failure && ArtifactOf(r, {}).value.1 == Failure
  {
    SharedPayloadMeans(l.record, r.record);
    ExecutionIsExact(l, {});
    ExecutionIsExact(r, {});
    BaselineResolution(l);
    BaselineResolution(r);
  }

  lemma BaselineResolution(w: Workspace100World)
    requires w.Valid()
    ensures ResolutionOf(w.record, w.record.initialResolver, w.record.selectedSelector)
      == Some(Resolution(w.record.observedConcreteId, w.record.observedDisplay, false))
  {
    OneInterventionDecides(w.record, false, false);
    ObservedResolution(w.record, w.record.initialResolver, w.record.selectedSelector);
  }

  lemma ObservedResolution(r: CompletionSourceRecord, resolver: Resolver, selector: string)
    requires r.ScalarFieldsValid() && Resolve(resolver, selector) == Some(r.observedConcreteId)
    ensures ResolutionOf(r, resolver, selector) == Some(Resolution(r.observedConcreteId, r.observedDisplay, false))
  {
  }

  /** Twins answer the owner probe alike and the epoch probe differently. */
  lemma TwinProbes(l: Workspace100World, r: Workspace100World)
    requires AreTwins(l, r) && l.template.epochProbe != OWNER_PROBE
    ensures l.Probe(OWNER_PROBE) == r.Probe(OWNER_PROBE) && l.Probe(OWNER_PROBE).Some?
    ensures l.Probe(l.template.epochProbe) != r.Probe(l.template.epochProbe)
    ensures l.Probe(l.template.epochProbe).Some? && r.Probe(l.template.epochProbe).Some?
  {
    TwinRecords(l.record, r.record);
    UnequalDocuments(
      l.encode, ProbeDocument(l.template.epochProbe, l.record.initialEpochId),
      ProbeDocument(l.template.epochProbe, r.record.initialEpochId));
  }

  lemma TwinRecords(l: CompletionSourceRecord, r: CompletionSourceRecord)
    requires ResolverContract(l) && ResolverContract(r) && SharedPayload(l) == SharedPayload(r)
    requires l.SelectorAligned() <==> !r.SelectorAligned()
    ensures l.initialEpochId != r.initialEpochId && l.owner == r.owner
  {
    SharedPayloadMeans(l, r);
    EpochFollowsAlignment(l);
    EpochFollowsAlignment(r);
  }

  lemma UnequalDocuments(encode: Encoder, a: Document, b: Document)
    requires Faithful(encode) && a != b
    ensures encode(a) != encode(b)
  {
  }

  lemma EpochFollowsAlignment(r: CompletionSourceRecord)
    requires ResolverContract(r)
    ensures r.initialEpochId != r.refreshEpochId <==> r.SelectorAligned()
  {
  }
}
