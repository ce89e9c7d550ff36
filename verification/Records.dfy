/** Authored records and the validators that a completion source must pass
    (src/witnessgap/workspace100/records.py). Of identifiers only the length is
    modelled, of display texts nothing. */
module Records {
  import opened Model
  import opened Order

  datatype TemplateId = PublishDraft | InviteMember | MoveWorkItem | ScheduleReview | GrantAccess

  datatype Split = Development | Validation | Test

  datatype ResolverBinding = ResolverBinding(selector: string, concreteId: string)

  type Resolver = seq<ResolverBinding>

  datatype TemplateRecord = TemplateRecord(
    templateId: TemplateId,
    split: Split,
    taskSchemaId: string,
    goalSelector: string,
    alternateSelector: string,
    refreshAtom: string,
    repairAtom: string,
    epochProbe: string,
    selectionChannel: string,
    resolverChannel: string,
    lookupTool: string,
    actionTool: string,
    terminalSuccess: string,
    terminalFailure: string)
  {
    predicate NamesFit() {
      && RecordName(taskSchemaId) && RecordName(goalSelector) && RecordName(alternateSelector)
      && RecordName(refreshAtom) && RecordName(repairAtom) && RecordName(epochProbe)
      && RecordName(selectionChannel) && RecordName(resolverChannel)
      && RecordName(lookupTool) && RecordName(actionTool)
      && RecordName(terminalSuccess) && RecordName(terminalFailure)
    }

    predicate Valid() {
      && NamesFit()
      && goalSelector != alternateSelector
      && refreshAtom != repairAtom
      && selectionChannel != resolverChannel
      && lookupTool != actionTool
      && terminalSuccess != terminalFailure
    }
  }

  datatype VariantRecord = VariantRecord(
    templateId: TemplateId,
    variantId: string,
    workspaceSlug: string,
    subjectId: string,
    subjectDisplay: string,
    owner: string,
    publicTask: string,
    intendedConcreteId: string,
    observedConcreteId: string,
    intendedDisplay: string,
    observedDisplay: string,
    referenceEpochId: string,
    alternateEpochId: string)
  {
    predicate NamesFit() {
      && RecordName(workspaceSlug) && RecordName(subjectId) && RecordName(owner)
      && RecordName(intendedConcreteId) && RecordName(observedConcreteId)
      && RecordName(referenceEpochId) && RecordName(alternateEpochId)
    }

    predicate Valid() {
      && NamesFit()
      && intendedConcreteId != observedConcreteId
      && intendedDisplay != observedDisplay
      && referenceEpochId != alternateEpochId
    }
  }

  datatype CompletionSourceRecord = CompletionSourceRecord(
    taskSchemaId: string,
    taskId: string,
    templateId: TemplateId,
    variantId: string,
    workspaceSlug: string,
    subjectId: string,
    subjectDisplay: string,
    owner: string,
    publicTask: string,
    intendedConcreteId: string,
    intendedDisplay: string,
    observedConcreteId: string,
    observedDisplay: string,
    goalSelector: string,
    selectedSelector: string,
    initialEpochId: string,
    initialResolver: Resolver,
    refreshEpochId: string,
    refreshResolver: Resolver)
  {
    /** The selection follows the goal; otherwise the resolver does. */
    predicate SelectorAligned() {
      selectedSelector == goalSelector
    }

    predicate NamesFit() {
      && RecordName(taskSchemaId) && RecordName(taskId) && RecordName(workspaceSlug)
      && RecordName(subjectId) && RecordName(owner)
      && RecordName(intendedConcreteId) && RecordName(observedConcreteId)
      && RecordName(goalSelector) && RecordName(selectedSelector)
      && RecordName(initialEpochId) && RecordName(refreshEpochId)
    }

    /** `_validate_source_scalar_fields` */
    predicate ScalarFieldsValid() {
      NamesFit() && intendedConcreteId != observedConcreteId && intendedDisplay != observedDisplay
    }

    predicate Valid() {
      ScalarFieldsValid() && ResolverContract(this)
    }
  }

  /** The order of a frozen dataclass: field by field. */
  predicate BindingLe(a: ResolverBinding, b: ResolverBinding) {
    if a.selector == b.selector then StringLe(a.concreteId, b.concreteId) else StringLe(a.selector, b.selector)
  }

  lemma StringsCompare(a: string, b: string)
    ensures StringLe(a, b) || StringLe(b, a)
    ensures StringLe(a, b) && StringLe(b, a) ==> a == b
  {
    StringsAreOrdered();
  }

  lemma BindingsCompare(a: ResolverBinding, b: ResolverBinding)
    ensures BindingLe(a, b) || BindingLe(b, a)
    ensures BindingLe(a, b) && BindingLe(b, a) ==> a == b
  {
    StringsCompare(a.selector, b.selector);
    StringsCompare(a.concreteId, b.concreteId);
  }

  /** `_resolve`; `None` stands for `KeyError`. */
  function Resolve(resolver: Resolver, selector: string): Option<string> {
    if resolver == [] then None
    else if resolver[0].selector == selector then Some(resolver[0].concreteId)
    else Resolve(resolver[1..], selector)
  }

  /** A resolved identifier is bound to the selector; failure means that nothing is. */
  lemma {:induction false} ResolveFinds(resolver: Resolver, selector: string)
    ensures Resolve(resolver, selector).Some? ==>
      ResolverBinding(selector, Resolve(resolver, selector).value) in resolver
    ensures Resolve(resolver, selector).None? ==> forall b :: b in resolver ==> b.selector != selector
  {
    if resolver != [] {
      ResolveFinds(resolver[1..], selector);
    }
  }

  function Selectors(resolver: Resolver): seq<string> {
    Apply(resolver, (b: ResolverBinding) => b.selector)
  }

  /** `next(selector for selector in selectors if selector != goal)` */
  function FirstOther(selectors: seq<string>, goal: string): Option<string> {
    if selectors == [] then None
    else if selectors[0] != goal then Some(selectors[0])
    else FirstOther(selectors[1..], goal)
  }

  lemma {:induction false} FirstOtherFinds(selectors: seq<string>, goal: string)
    requires FirstOther(selectors, goal).Some?
    ensures FirstOther(selectors, goal).value in selectors && FirstOther(selectors, goal).value != goal
  {
    if selectors[0] == goal {
      FirstOtherFinds(selectors[1..], goal);
    }
  }

  /** `_validate_resolver` */
  predicate ValidResolver(resolver: Resolver) {
    && |resolver| == 2
    && Sort(BindingLe, resolver) == resolver
    && |Elements(Selectors(resolver))| == |Selectors(resolver)|
  }

  predicate DrawsFrom(resolver: Resolver, ids: set<string>) {
    forall b :: b in resolver ==> b.concreteId in ids
  }

  /** `_validate_source_resolver_contract`: its checks, in order. */
  predicate ResolverContract(r: CompletionSourceRecord) {
    var selectors := Selectors(r.initialResolver);
    var allowed := {r.intendedConcreteId, r.observedConcreteId};
    var alternate := FirstOther(selectors, r.goalSelector);
    && ValidResolver(r.initialResolver) && ValidResolver(r.refreshResolver)
    && selectors == Selectors(r.refreshResolver)
    && r.goalSelector in selectors
    && r.selectedSelector in selectors
    && DrawsFrom(r.initialResolver, allowed) && DrawsFrom(r.refreshResolver, allowed)
    && Resolve(r.refreshResolver, r.goalSelector) == Some(r.intendedConcreteId)
    && alternate.Some?
    && Resolve(r.refreshResolver, alternate.value) == Some(r.observedConcreteId)
    && Resolve(r.initialResolver, r.selectedSelector) == Some(r.observedConcreteId)
    && if r.SelectorAligned() then
         && Resolve(r.initialResolver, r.goalSelector) == Some(r.observedConcreteId)
         && r.initialEpochId != r.refreshEpochId
       else
         && Resolve(r.initialResolver, r.goalSelector) == Some(r.intendedConcreteId)
         && r.initialEpochId == r.refreshEpochId
  }

  // ---------- what the contract leaves open ----------

  /** The resolver that maps `goal` to `toGoal` and `alternate` to `toAlternate`. */
  function Mapping(goal: string, toGoal: string, alternate: string, toAlternate: string): Resolver {
    var a, b := ResolverBinding(goal, toGoal), ResolverBinding(alternate, toAlternate);
    if StringLe(goal, alternate) then [a, b] else [b, a]
  }

  function Lookup(a: ResolverBinding, b: ResolverBinding, selector: string): Option<string> {
    if a.selector == selector then Some(a.concreteId)
    else if b.selector == selector then Some(b.concreteId)
    else None
  }

  lemma PairReads(a: ResolverBinding, b: ResolverBinding, selector: string)
    ensures Selectors([a, b]) == [a.selector, b.selector]
    ensures Resolve([a, b], selector) == Lookup(a, b, selector)
  {
    assert [a, b][1..] == [b] && [b][1..] == [];
    assert Resolve([b], selector) == if b.selector == selector then Some(b.concreteId) else None;
  }

  lemma PairIsValid(a: ResolverBinding, b: ResolverBinding)
    ensures ValidResolver([a, b]) <==> a.selector != b.selector && BindingLe(a, b)
  {
    SortOfPair(BindingLe, a, b);
    PairReads(a, b, a.selector);
    DistinctCardinality([a.selector, b.selector]);
    BindingsCompare(a, b);
  }

  lemma OtherOfTwo(goal: string, alternate: string)
    requires goal != alternate
    ensures FirstOther([goal, alternate], goal) == Some(alternate)
    ensures FirstOther([alternate, goal], goal) == Some(alternate)
  {
    assert [goal, alternate][1..] == [alternate];
    assert FirstOther([alternate], goal) == Some(alternate);
  }

  /** A mapping of two selectors passes validation and resolves both. */
  lemma MappingIsValid(goal: string, toGoal: string, alternate: string, toAlternate: string)
    requires goal != alternate
    ensures var r := Mapping(goal, toGoal, alternate, toAlternate);
      && ValidResolver(r)
      && Selectors(r) == Selectors(Mapping(goal, "", alternate, ""))
      && goal in Selectors(r) && alternate in Selectors(r)
      && FirstOther(Selectors(r), goal) == Some(alternate)
      && DrawsFrom(r, {toGoal, toAlternate})
      && Resolve(r, goal) == Some(toGoal) && Resolve(r, alternate) == Some(toAlternate)
  {
    var a, b := ResolverBinding(goal, toGoal), ResolverBinding(alternate, toAlternate);
    StringsCompare(goal, alternate);
    if StringLe(goal, alternate) {
      PairServes(a, b, goal, alternate);
    } else {
      PairServes(b, a, goal, alternate);
    }
  }

  lemma PairServes(a: ResolverBinding, b: ResolverBinding, goal: string, alternate: string)
    requires a.selector != b.selector && BindingLe(a, b) && {a.selector, b.selector} == {goal, alternate}
    ensures ValidResolver([a, b])
    ensures Selectors([a, b]) == [a.selector, b.selector]
    ensures FirstOther([a.selector, b.selector], goal) == Some(alternate)
    ensures Resolve([a, b], goal) == Lookup(a, b, goal) && Resolve([a, b], alternate) == Lookup(a, b, alternate)
  {
    PairIsValid(a, b);
    PairReads(a, b, goal);
    PairReads(a, b, alternate);
    assert a.selector in {goal, alternate} && b.selector in {goal, alternate} && alternate in {a.selector, b.selector};
    OtherOfTwo(goal, alternate);
  }

  /** Every valid resolver over two selectors is such a mapping. */
  lemma ResolverIsMapping(r: Resolver, goal: string, alternate: string)
    requires ValidResolver(r) && goal != alternate && goal in Selectors(r) && alternate in Selectors(r)
    ensures Resolve(r, goal).Some? && Resolve(r, alternate).Some?
    ensures r == Mapping(goal, Resolve(r, goal).value, alternate, Resolve(r, alternate).value)
    ensures forall s :: s in Selectors(r) ==> s == goal || s == alternate
  {
    var a, b := r[0], r[1];
    assert r == [a, b];
    PairReads(a, b, goal);
    PairReads(a, b, alternate);
    PairIsValid(a, b);
    StringsCompare(a.selector, b.selector);
  }

  /** The records the contract accepts, stated without any resolver lookup: the
      refreshed resolver is fixed outright, and either the selection is right
      and the initial resolver maps the goal to the observed ID, or the
      selection is wrong and nothing else is. */
  ghost predicate ContractShape(r: CompletionSourceRecord, alternate: string, stale: string) {
    && alternate != r.goalSelector
    && stale in {r.intendedConcreteId, r.observedConcreteId}
    && r.refreshResolver == Mapping(r.goalSelector, r.intendedConcreteId, alternate, r.observedConcreteId)
    && if r.selectedSelector == r.goalSelector then
         && r.initialResolver == Mapping(r.goalSelector, r.observedConcreteId, alternate, stale)
         && r.initialEpochId != r.refreshEpochId
       else
         && r.selectedSelector == alternate
         && r.initialResolver == r.refreshResolver
         && r.initialEpochId == r.refreshEpochId
  }

  lemma ShapeMeetsContract(r: CompletionSourceRecord, alternate: string, stale: string)
    requires ContractShape(r, alternate, stale)
    ensures ResolverContract(r)
  {
    MappingIsValid(r.goalSelector, r.intendedConcreteId, alternate, r.observedConcreteId);
    MappingIsValid(r.goalSelector, r.observedConcreteId, alternate, stale);
  }

  lemma ContractHasShape(r: CompletionSourceRecord) returns (alternate: string, stale: string)
    requires ResolverContract(r)
    ensures ContractShape(r, alternate, stale)
  {
    alternate := FirstOther(Selectors(r.initialResolver), r.goalSelector).value;
    FirstOtherFinds(Selectors(r.initialResolver), r.goalSelector);
    ResolverIsMapping(r.refreshResolver, r.goalSelector, alternate);
    ResolverIsMapping(r.initialResolver, r.goalSelector, alternate);
    stale := Resolve(r.initialResolver, alternate).value;
    StaleIsAllowed(r, alternate);
  }

  lemma StaleIsAllowed(r: CompletionSourceRecord, alternate: string)
    requires DrawsFrom(r.initialResolver, {r.intendedConcreteId, r.observedConcreteId})
    requires Resolve(r.initialResolver, alternate).Some?
    ensures Resolve(r.initialResolver, alternate).value in {r.intendedConcreteId, r.observedConcreteId}
  {
    ResolveFinds(r.initialResolver, alternate);
  }

  /** The resolver contract accepts a record exactly when it has that shape. */
  lemma ContractIsExact(r: CompletionSourceRecord)
    ensures ResolverContract(r) <==> exists alternate, stale :: ContractShape(r, alternate, stale)
  {
    if ResolverContract(r) {
      var alternate, stale := ContractHasShape(r);
    }
    if alternate, stale :| ContractShape(r, alternate, stale) {
      ShapeMeetsContract(r, alternate, stale);
    }
  }
}
