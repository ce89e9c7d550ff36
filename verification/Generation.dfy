/** Twin construction: how one authored variant becomes two completion records,
    and the checks that tie them together
    (src/witnessgap/workspace100/generation.py). */
module Generation {
  import opened Model
  import opened Order
  import opened Records

  /** SHA-256 identities, as functions of what they commit to. Episode and pair
      identities are only ever compared; a task identity also has to fit. */
  datatype Identities = Identities(
    commit: CompletionSourceRecord -> string,
    taskDigest: VariantRecord -> string,
    episodeId: string -> string,
    pairId: ((string, string)) -> string)
  {
    /** `_task_id` */
    function TaskId(v: VariantRecord): (id: string)
      ensures CoreName(id) && RecordName(id)
    {
      OpaqueId("wgt", taskDigest(v))
    }

    ghost predicate Binding() {
      forall a, b :: commit(a) == commit(b) ==> a == b
    }
  }

  // ---------- the intervention matrix ----------

  /** `_resolve_record` */
  function ResolveRecord(r: CompletionSourceRecord, refresh: bool, repair: bool): Option<string> {
    Resolve(
      if refresh then r.refreshResolver else r.initialResolver,
      if repair then r.goalSelector else r.selectedSelector)
  }

  /** What baseline, refresh, repair and both interventions resolve to. */
  datatype Matrix = Matrix(
    baseline: Option<string>, refreshed: Option<string>, repaired: Option<string>, combined: Option<string>)

  function ConstructionMatrix(r: CompletionSourceRecord): Matrix {
    Matrix(
      ResolveRecord(r, false, false),
      ResolveRecord(r, true, false),
      ResolveRecord(r, false, true),
      ResolveRecord(r, true, true))
  }

  /** The resolver contract alone fixes the matrix: refreshing repairs exactly
      the selector-aligned records, correcting the selector exactly the others. */
  lemma ContractForcesMatrix(r: CompletionSourceRecord)
    requires ResolverContract(r)
    ensures var intended, observed := Some(r.intendedConcreteId), Some(r.observedConcreteId);
      ConstructionMatrix(r) ==
        if r.SelectorAligned()
        then Matrix(observed, intended, observed, intended)
        else Matrix(observed, observed, intended, intended)
  {
    var alternate, stale := ContractHasShape(r);
    MappingIsValid(r.goalSelector, r.intendedConcreteId, alternate, r.observedConcreteId);
  }

  /** One intervention decides: refreshing for a selector-aligned record,
      repairing for the other kind. */
  lemma OneInterventionDecides(r: CompletionSourceRecord, refresh: bool, repair: bool)
    requires ResolverContract(r)
    ensures ResolveRecord(r, refresh, repair) == Some(
      if (if r.SelectorAligned() then refresh else repair) then r.intendedConcreteId else r.observedConcreteId)
  {
    ContractForcesMatrix(r);
    var m := ConstructionMatrix(r);
    assert ResolveRecord(r, refresh, repair) ==
      if refresh then (if repair then m.combined else m.refreshed) else (if repair then m.repaired else m.baseline);
  }

  // ---------- what twins share ----------

  datatype Field =
    | GoalSelector | InitialEpochId | InitialResolver | IntendedConcreteId | IntendedDisplay
    | ObservedConcreteId | ObservedDisplay | Owner | PublicTask | RefreshEpochId | RefreshResolver
    | SelectedSelector | SubjectDisplay | SubjectId | TaskId | TaskSchemaId | TemplateKey
    | VariantId | WorkspaceSlug

  datatype Value = Text(text: string) | Bindings(bindings: Resolver) | Template(id: TemplateId)

  function FieldOf(r: CompletionSourceRecord, f: Field): Value {
    match f
    case GoalSelector => Text(r.goalSelector)
    case InitialEpochId => Text(r.initialEpochId)
    case InitialResolver => Bindings(r.initialResolver)
    case IntendedConcreteId => Text(r.intendedConcreteId)
    case IntendedDisplay => Text(r.intendedDisplay)
    case ObservedConcreteId => Text(r.observedConcreteId)
    case ObservedDisplay => Text(r.observedDisplay)
    case Owner => Text(r.owner)
    case PublicTask => Text(r.publicTask)
    case RefreshEpochId => Text(r.refreshEpochId)
    case RefreshResolver => Bindings(r.refreshResolver)
    case SelectedSelector => Text(r.selectedSelector)
    case SubjectDisplay => Text(r.subjectDisplay)
    case SubjectId => Text(r.subjectId)
    case TaskId => Text(r.taskId)
    case TaskSchemaId => Text(r.taskSchemaId)
    case TemplateKey => Template(r.templateId)
    case VariantId => Text(r.variantId)
    case WorkspaceSlug => Text(r.workspaceSlug)
  }

  /** `to_payload`; its two constant fields are omitted. */
  function ToPayload(r: CompletionSourceRecord): map<Field, Value> {
    map f: Field | true :: FieldOf(r, f)
  }

  const PRIVATE_FIELDS := [InitialEpochId, InitialResolver, SelectedSelector]

  /** What remains of a record once its initial state is disregarded. */
  function SharedPayload(r: CompletionSourceRecord): map<Field, Value> {
    ToPayload(r) - {InitialEpochId, InitialResolver, SelectedSelector}
  }

  /** `_shared_source_payload` */
  method SharedSourcePayload(r: CompletionSourceRecord) returns (payload: map<Field, Value>)
    ensures payload == SharedPayload(r)
  {
    payload := ToPayload(r);
    for i := 0 to |PRIVATE_FIELDS|
      invariant payload == ToPayload(r) - Elements(PRIVATE_FIELDS[..i])
    {
      assert PRIVATE_FIELDS[..i + 1] == PRIVATE_FIELDS[..i] + [PRIVATE_FIELDS[i]];
      payload := payload - {PRIVATE_FIELDS[i]};
    }
    assert PRIVATE_FIELDS[..|PRIVATE_FIELDS|] == PRIVATE_FIELDS;
    assert Elements(PRIVATE_FIELDS) == {InitialEpochId, InitialResolver, SelectedSelector};
  }

  /** `b` with the initial state of `a`. */
  function WithInitialState(b: CompletionSourceRecord, a: CompletionSourceRecord): CompletionSourceRecord {
    b.(initialEpochId := a.initialEpochId,
       initialResolver := a.initialResolver,
       selectedSelector := a.selectedSelector)
  }

  /** Two records share their payload exactly when they differ in nothing but
      their initial state. */
  lemma SharedPayloadMeans(a: CompletionSourceRecord, b: CompletionSourceRecord)
    ensures SharedPayload(a) == SharedPayload(b) <==> a == WithInitialState(b, a)
  {
    if SharedPayload(a) == SharedPayload(b) {
      forall f: Field | f !in {InitialEpochId, InitialResolver, SelectedSelector}
        ensures FieldOf(a, f) == FieldOf(b, f)
      {
        assert SharedPayload(a)[f] == SharedPayload(b)[f];
      }
      SameFields(a, WithInitialState(b, a));
    }
    if a == WithInitialState(b, a) {
      forall f: Field | f in SharedPayload(a) ensures SharedPayload(a)[f] == SharedPayload(b)[f] {
        assert FieldOf(a, f) == FieldOf(b, f);
      }
    }
  }

  ghost predicate SameTask(a: CompletionSourceRecord, b: CompletionSourceRecord) {
    && a.owner == b.owner && a.publicTask == b.publicTask && a.subjectDisplay == b.subjectDisplay
    && a.subjectId == b.subjectId && a.taskId == b.taskId && a.taskSchemaId == b.taskSchemaId
    && a.templateId == b.templateId && a.variantId == b.variantId && a.workspaceSlug == b.workspaceSlug
  }

  lemma SameTaskFields(a: CompletionSourceRecord, b: CompletionSourceRecord)
    requires forall f: Field :: FieldOf(a, f) == FieldOf(b, f)
    ensures SameTask(a, b)
  {
    assert FieldOf(a, Owner) == FieldOf(b, Owner);
    assert FieldOf(a, PublicTask) == FieldOf(b, PublicTask);
    assert FieldOf(a, SubjectDisplay) == FieldOf(b, SubjectDisplay);
    assert FieldOf(a, SubjectId) == FieldOf(b, SubjectId);
    assert FieldOf(a, TaskId) == FieldOf(b, TaskId);
    assert FieldOf(a, TaskSchemaId) == FieldOf(b, TaskSchemaId);
    assert FieldOf(a, TemplateKey) == FieldOf(b, TemplateKey);
    assert FieldOf(a, VariantId) == FieldOf(b, VariantId);
    assert FieldOf(a, WorkspaceSlug) == FieldOf(b, WorkspaceSlug);
  }

  /** The payload determines the record. */
  lemma SameFields(a: CompletionSourceRecord, b: CompletionSourceRecord)
    requires forall f: Field :: FieldOf(a, f) == FieldOf(b, f)
    ensures a == b
  {
    SameTaskFields(a, b);
    assert FieldOf(a, GoalSelector) == FieldOf(b, GoalSelector);
    assert FieldOf(a, InitialEpochId) == FieldOf(b, InitialEpochId);
    assert FieldOf(a, InitialResolver) == FieldOf(b, InitialResolver);
    assert FieldOf(a, IntendedConcreteId) == FieldOf(b, IntendedConcreteId);
    assert FieldOf(a, IntendedDisplay) == FieldOf(b, IntendedDisplay);
    assert FieldOf(a, ObservedConcreteId) == FieldOf(b, ObservedConcreteId);
    assert FieldOf(a, ObservedDisplay) == FieldOf(b, ObservedDisplay);
    assert FieldOf(a, RefreshEpochId) == FieldOf(b, RefreshEpochId);
    assert FieldOf(a, RefreshResolver) == FieldOf(b, RefreshResolver);
    assert FieldOf(a, SelectedSelector) == FieldOf(b, SelectedSelector);
  }

  /** `_validate_twin_construction`. Canonical bytes are distinct exactly when
      the records are. */
  predicate ValidTwinConstruction(a: CompletionSourceRecord, b: CompletionSourceRecord) {
    var intended, observed := Some(a.intendedConcreteId), Some(a.observedConcreteId);
    && SharedPayload(a) == SharedPayload(b)
    && b.intendedConcreteId == a.intendedConcreteId && b.observedConcreteId == a.observedConcreteId
    && ConstructionMatrix(a) == Matrix(observed, intended, observed, intended)
    && ConstructionMatrix(b) == Matrix(observed, observed, intended, intended)
    && a != b
  }

  /** For valid records the construction check can fail only on unequal shared
      payloads or on sides that are not complementary. */
  lemma TwinConstructionIsExact(a: CompletionSourceRecord, b: CompletionSourceRecord)
    requires a.Valid() && b.Valid()
    ensures ValidTwinConstruction(a, b)
      <==> SharedPayload(a) == SharedPayload(b) && a.SelectorAligned() && !b.SelectorAligned()
  {
    SharedPayloadMeans(a, b);
    ContractForcesMatrix(a);
    ContractForcesMatrix(b);
  }

  // ---------- authored records ----------

  /** `_source_record` */
  function SourceRecord(
    template: TemplateRecord, variant: VariantRecord, taskId: string,
    selected: string, epoch: string, resolver: Resolver, refreshResolver: Resolver): CompletionSourceRecord
  {
    CompletionSourceRecord(
      template.taskSchemaId, taskId, variant.templateId, variant.variantId, variant.workspaceSlug,
      variant.subjectId, variant.subjectDisplay, variant.owner, variant.publicTask,
      variant.intendedConcreteId, variant.intendedDisplay,
      variant.observedConcreteId, variant.observedDisplay,
      template.goalSelector, selected, epoch, resolver, variant.referenceEpochId, refreshResolver)
  }

  /** `_resolver`: `tuple(sorted((first, second)))` */
  function SortedResolver(first: ResolverBinding, second: ResolverBinding): Resolver {
    Sort(BindingLe, [first, second])
  }

  /** `_completion_records`: the selector-aligned record, then the other. */
  function CompletionRecords(template: TemplateRecord, variant: VariantRecord, taskId: string)
    : (CompletionSourceRecord, CompletionSourceRecord)
  {
    var reference := SortedResolver(
      ResolverBinding(template.goalSelector, variant.intendedConcreteId),
      ResolverBinding(template.alternateSelector, variant.observedConcreteId));
    var alternate := SortedResolver(
      ResolverBinding(template.goalSelector, variant.observedConcreteId),
      ResolverBinding(template.alternateSelector, variant.observedConcreteId));
    (SourceRecord(template, variant, taskId,
                  template.goalSelector, variant.alternateEpochId, alternate, reference),
     SourceRecord(template, variant, taskId,
                  template.alternateSelector, variant.referenceEpochId, reference, reference))
  }

  lemma SortedResolverIsMapping(goal: string, toGoal: string, alternate: string, toAlternate: string)
    requires goal != alternate
    ensures SortedResolver(ResolverBinding(goal, toGoal), ResolverBinding(alternate, toAlternate))
      == Mapping(goal, toGoal, alternate, toAlternate)
  {
    SortOfPair(BindingLe, ResolverBinding(goal, toGoal), ResolverBinding(alternate, toAlternate));
  }

  /** Every valid template and variant author two valid, complementary twins:
      none of the construction checks can ever fire. */
  lemma AuthoredRecordsAreTwins(template: TemplateRecord, variant: VariantRecord, taskId: string)
    requires template.Valid() && variant.Valid() && RecordName(taskId)
    ensures var (a, b) := CompletionRecords(template, variant, taskId);
      && a.Valid() && b.Valid()
      && a.SelectorAligned() && !b.SelectorAligned()
      && ValidTwinConstruction(a, b)
  {
    var (a, b) := CompletionRecords(template, variant, taskId);
    var goal, alternate := template.goalSelector, template.alternateSelector;
    SortedResolverIsMapping(goal, variant.intendedConcreteId, alternate, variant.observedConcreteId);
    SortedResolverIsMapping(goal, variant.observedConcreteId, alternate, variant.observedConcreteId);
    ShapeMeetsContract(a, alternate, variant.observedConcreteId);
    ShapeMeetsContract(b, alternate, variant.observedConcreteId);
    SharedPayloadMeans(a, b);
    TwinConstructionIsExact(a, b);
  }

  // ---------- generated pairs ----------

  datatype GeneratedCompletion = GeneratedCompletion(
    episodeId: string, record: CompletionSourceRecord, commitment: string)

  datatype GeneratedPair = GeneratedPair(
    pairId: string,
    taskId: string,
    templateId: TemplateId,
    variantId: string,
    split: Split,
    left: GeneratedCompletion,
    right: GeneratedCompletion)

  /** `GeneratedCompletion.validate` and its identity checks against the pair. */
  predicate ValidCompletion(c: GeneratedCompletion, pair: GeneratedPair, ids: Identities) {
    && c.record.Valid()
    && c.commitment == ids.commit(c.record)
    && c.episodeId == ids.episodeId(c.commitment)
    && c.record.taskId == pair.taskId
    && c.record.templateId == pair.templateId
    && c.record.variantId == pair.variantId
  }

  /** `GeneratedPair.validate` */
  predicate ValidPair(pair: GeneratedPair, ids: Identities) {
    var a, b := pair.left.record, pair.right.record;
    && ValidCompletion(pair.left, pair, ids) && ValidCompletion(pair.right, pair, ids)
    && (a.SelectorAligned() <==> !b.SelectorAligned())
    && (if a.SelectorAligned() then ValidTwinConstruction(a, b) else ValidTwinConstruction(b, a))
    && StringLe(pair.left.commitment, pair.right.commitment)
    && pair.left.commitment != pair.right.commitment
    && pair.pairId == ids.pairId((pair.left.commitment, pair.right.commitment))
  }

  function Seal(r: CompletionSourceRecord, ids: Identities): GeneratedCompletion {
    GeneratedCompletion(ids.episodeId(ids.commit(r)), r, ids.commit(r))
  }

  /** The two sealed twins in commitment order. */
  function PairOf(template: TemplateRecord, variant: VariantRecord, ids: Identities): GeneratedPair {
    var records := CompletionRecords(template, variant, ids.TaskId(variant));
    var a, b := Seal(records.0, ids), Seal(records.1, ids);
    var (left, right) := if StringLe(a.commitment, b.commitment) then (a, b) else (b, a);
    GeneratedPair(
      ids.pairId((left.commitment, right.commitment)), records.0.taskId,
      variant.templateId, variant.variantId, template.split, left, right)
  }

  lemma PairOfIsValid(template: TemplateRecord, variant: VariantRecord, ids: Identities)
    requires template.Valid() && variant.Valid() && ids.Binding()
    ensures ValidPair(PairOf(template, variant, ids), ids)
  {
    var (a, b) := CompletionRecords(template, variant, ids.TaskId(variant));
    AuthoredRecordsAreTwins(template, variant, ids.TaskId(variant));
    StringsCompare(ids.commit(a), ids.commit(b));
  }

  ghost predicate ValidCatalog(templates: map<TemplateId, TemplateRecord>, variants: seq<VariantRecord>) {
    && (forall t :: t in templates ==> templates[t].Valid())
    && (forall i :: 0 <= i < |variants| ==> variants[i].Valid() && variants[i].templateId in templates)
  }

  datatype GenerationError = InvalidTwins | InvalidPair

  /** One iteration of the generator: neither check can fire. */
  method GeneratePair(template: TemplateRecord, variant: VariantRecord, ids: Identities)
    returns (r: Result<GeneratedPair, GenerationError>)
    requires template.Valid() && variant.Valid() && ids.Binding()
    ensures r == Ok(PairOf(template, variant, ids))
  {
    AuthoredRecordsAreTwins(template, variant, ids.TaskId(variant));
    PairOfIsValid(template, variant, ids);
    var (first, second) := CompletionRecords(template, variant, ids.TaskId(variant));
    if !ValidTwinConstruction(first, second) {
      return Err(InvalidTwins);
    }
    var pair := PairOf(template, variant, ids);
    if !ValidPair(pair, ids) {
      return Err(InvalidPair);
    }
    r := Ok(pair);
  }

  ghost function PairFor(templates: map<TemplateId, TemplateRecord>, ids: Identities)
    : VariantRecord -> Option<GeneratedPair>
  {
    (v: VariantRecord) =>
      if v.templateId in templates then Some(PairOf(templates[v.templateId], v, ids)) else None
  }

  /** `generate_workspace100`: with binding commitments, a valid catalogue of any
      size is always turned into one pair per variant, in order. */
  method GeneratePairs(templates: map<TemplateId, TemplateRecord>, variants: seq<VariantRecord>, ids: Identities)
    returns (r: Result<seq<GeneratedPair>, GenerationError>)
    requires ValidCatalog(templates, variants) && ids.Binding()
    ensures r.Ok? && Answers(PairFor(templates, ids), variants, r.value)
  {
    var pairs: seq<GeneratedPair> := [];
    ghost var f := PairFor(templates, ids);
    for i := 0 to |variants|
      invariant Answers(f, variants[..i], pairs)
    {
      var pair := GeneratePair(templates[variants[i].templateId], variants[i], ids);
      match pair {
        case Err(error) =>
          return Err(error);
        case Ok(generated) =>
          AnswersNext(f, variants, pairs, i, generated);
          pairs := pairs + [generated];
      }
    }
    assert variants[..|variants|] == variants;
    r := Ok(pairs);
  }

  lemma GeneratedPairsAreValid(
      templates: map<TemplateId, TemplateRecord>, variants: seq<VariantRecord>, ids: Identities,
      pairs: seq<GeneratedPair>, i: nat)
    requires ValidCatalog(templates, variants) && ids.Binding()
    requires Answers(PairFor(templates, ids), variants, pairs) && i < |pairs|
    ensures ValidPair(pairs[i], ids)
  {
    assert PairFor(templates, ids)(variants[i]) == Some(pairs[i]);
    PairOfIsValid(templates[variants[i].templateId], variants[i], ids);
  }
}
