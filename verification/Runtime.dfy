/** The runtime of one decoded completion: recorded state reads, the single-use
    runner and the artifact validator
    (src/witnessgap/workspace100/runtime.py). */
module Runtime {
  import opened Model
  import opened Order
  import opened Records
  import opened Generation

  const OWNER_PROBE := "workspace_owner"
  const ENVIRONMENT := "environment"
  const POLICY := "policy"

  // ---------- state, documents and artifacts ----------

  datatype RuntimeState = RuntimeState(selectedSelector: string, epochId: string, resolver: Resolver)

  /** What a state-value digest commits to. */
  datatype StateValue = Selection(selector: string) | Snapshot(epochId: string, resolver: Resolver)

  datatype StateRead = StateRead(sequence: nat, channel: string, value: StateValue)

  datatype Resolution = Resolution(concreteId: string, display: string, success: bool)

  /** The JSON trees that leave the runtime as bytes. */
  datatype Document =
    | TraceDocument(
        subjectId: string, workspace: string, lookupTool: string, actionTool: string,
        concreteId: string, display: string, interventions: Witness, task: string, terminal: string)
    | TerminalDocument(resolvedConcreteId: string, success: bool)
    | ProbeDocument(name: string, value: string)

  /** `canonical_json` */
  type Encoder = Document -> Bytes

  ghost predicate Faithful(encode: Encoder) {
    forall a, b :: encode(a) == encode(b) ==> a == b
  }

  datatype ExecutionArtifact = ExecutionArtifact(
    snapshot: string,
    publicTrace: Bytes,
    terminalState: Bytes,
    stateReadLog: seq<StateRead>,
    interventionLog: Witness)
  {
    /** `ExecutionArtifact.validate` */
    predicate WellFormed() {
      && (forall i :: 0 <= i < |stateReadLog| ==> CoreName(stateReadLog[i].channel))
      && CoreNames(interventionLog)
      && (forall i :: 0 <= i < |stateReadLog| ==> stateReadLog[i].sequence == i)
      && SortedUnique(interventionLog)
    }
  }

  predicate AtomLe(a: Atom, b: Atom) {
    if a.name == b.name then StringLe(a.target, b.target) else StringLe(a.name, b.name)
  }

  /** One decoded completion, as the trusted adapter presents it. */
  datatype Workspace100World = Workspace100World(
    record: CompletionSourceRecord,
    template: TemplateRecord,
    commitment: string,
    snapshot: string,
    encode: Encoder)
  {
    /** What decoding establishes. */
    predicate Valid() {
      && record.Valid() && template.Valid()
      && template.taskSchemaId == record.taskSchemaId && template.templateId == record.templateId
    }

    function Atoms(): seq<Atom> {
      Sort(AtomLe, [Atom(template.refreshAtom, ENVIRONMENT), Atom(template.repairAtom, POLICY)])
    }

    function ProbeNames(): seq<string> {
      Sort(StringLe, [template.epochProbe, OWNER_PROBE])
    }

    function StateChannels(): seq<string> {
      Sort(StringLe, [template.selectionChannel, template.resolverChannel])
    }

    /** `probe`; `None` stands for `KeyError`. */
    function Probe(name: string): Option<Bytes> {
      if name == template.epochProbe then Some(encode(ProbeDocument(name, record.initialEpochId)))
      else if name == OWNER_PROBE then Some(encode(ProbeDocument(name, record.owner)))
      else None
    }

    function Known(): set<string> {
      {template.refreshAtom, template.repairAtom}
    }

    /** The core can record every declared intervention and state channel. */
    predicate Runnable() {
      && CoreName(template.refreshAtom) && CoreName(template.repairAtom)
      && CoreName(template.selectionChannel) && CoreName(template.resolverChannel)
    }

    /** The names that a manifest needs besides, which no record validator checks. */
    predicate Declarable() {
      && Runnable()
      && CoreName(record.taskSchemaId) && CoreName(record.taskId)
      && CoreName(template.epochProbe) && template.epochProbe != OWNER_PROBE
    }
  }

  // ---------- executing an intervention subset ----------

  /** `_state_after_interventions` */
  function StateAfter(w: Workspace100World, interventions: set<string>): RuntimeState {
    var refresh := w.template.refreshAtom in interventions;
    var repair := w.template.repairAtom in interventions;
    RuntimeState(
      if repair then w.record.goalSelector else w.record.selectedSelector,
      if refresh then w.record.refreshEpochId else w.record.initialEpochId,
      if refresh then w.record.refreshResolver else w.record.initialResolver)
  }

  /** `_display_for` */
  function DisplayFor(record: CompletionSourceRecord, concreteId: string): Option<string> {
    if concreteId == record.intendedConcreteId then Some(record.intendedDisplay)
    else if concreteId == record.observedConcreteId then Some(record.observedDisplay)
    else None
  }

  function ResolutionOf(record: CompletionSourceRecord, resolver: Resolver, selector: string): Option<Resolution> {
    match Resolve(resolver, selector)
    case None => None
    case Some(id) =>
      match DisplayFor(record, id)
      case None => None
      case Some(display) => Some(Resolution(id, display, id == record.intendedConcreteId))
  }

  /** `_public_trace` */
  function PublicTrace(w: Workspace100World, resolution: Resolution, interventionLog: Witness): Document {
    TraceDocument(
      w.record.subjectId, w.record.workspaceSlug, w.template.lookupTool, w.template.actionTool,
      resolution.concreteId, resolution.display, interventionLog, w.record.publicTask,
      if resolution.success then w.template.terminalSuccess else w.template.terminalFailure)
  }

  /** The two reads that every execution performs. */
  function ReadLog(w: Workspace100World, state: RuntimeState): seq<StateRead> {
    [StateRead(0, w.template.selectionChannel, Selection(state.selectedSelector)),
     StateRead(1, w.template.resolverChannel, Snapshot(state.epochId, state.resolver))]
  }

  function Assembled(
    w: Workspace100World, resolution: Resolution, readLog: seq<StateRead>, log: Witness): ExecutionArtifact
  {
    ExecutionArtifact(
      w.snapshot,
      w.encode(PublicTrace(w, resolution, log)),
      w.encode(TerminalDocument(resolution.concreteId, resolution.success)),
      readLog,
      log)
  }

  /** `StateRead` and `ExecutionArtifact` refuse names that are too long. */
  predicate Recordable(w: Workspace100World, interventions: set<string>) {
    && CoreName(w.template.selectionChannel) && CoreName(w.template.resolverChannel)
    && forall name :: name in interventions ==> CoreName(name)
  }

  /** What executing a subset must produce; `None` stands for `ValueError`. */
  function ArtifactOf(w: Workspace100World, interventions: set<string>): Option<(ExecutionArtifact, Outcome)> {
    if !Recordable(w, interventions) then None
    else
      var state := StateAfter(w, interventions);
      match ResolutionOf(w.record, state.resolver, state.selectedSelector)
      case None => None
      case Some(resolution) =>
        Some((Assembled(w, resolution, ReadLog(w, state), LogOf(interventions)),
              if resolution.success then Success else Failure))
  }

  /** The sole state capability available to task execution. */
  class RecordingState {
    const state: RuntimeState
    var readLog: seq<StateRead>

    constructor (state: RuntimeState)
      ensures this.state == state && readLog == []
    {
      this.state := state;
      readLog := [];
    }

    /** `_record`; `false` stands for the `ValueError` of a name that is too long. */
    method Record(channel: string, value: StateValue) returns (ok: bool)
      modifies this
      ensures ok <==> CoreName(channel)
      ensures readLog == old(readLog) + if ok then [StateRead(|old(readLog)|, channel, value)] else []
    {
      ok := CoreName(channel);
      if ok {
        readLog := readLog + [StateRead(|readLog|, channel, value)];
      }
    }

    method ReadSelection(channel: string) returns (value: Option<string>)
      modifies this
      ensures value == if CoreName(channel) then Some(state.selectedSelector) else None
      ensures readLog == old(readLog)
        + if CoreName(channel) then [StateRead(|old(readLog)|, channel, Selection(state.selectedSelector))] else []
    {
      var ok := Record(channel, Selection(state.selectedSelector));
      value := if ok then Some(state.selectedSelector) else None;
    }

    method ReadResolver(channel: string) returns (value: Option<Resolver>)
      modifies this
      ensures value == if CoreName(channel) then Some(state.resolver) else None
      ensures readLog == old(readLog)
        + if CoreName(channel) then [StateRead(|old(readLog)|, channel, Snapshot(state.epochId, state.resolver))]
          else []
    {
      var ok := Record(channel, Snapshot(state.epochId, state.resolver));
      value := if ok then Some(state.resolver) else None;
    }
  }

  /** `_build_artifact` */
  method BuildArtifact(w: Workspace100World, interventions: set<string>)
    returns (r: Option<(ExecutionArtifact, Outcome)>)
    ensures r == ArtifactOf(w, interventions)
  {
    var recording := new RecordingState(StateAfter(w, interventions));
    var selector := recording.ReadSelection(w.template.selectionChannel);
    if selector.None? {
      return None;
    }
    var resolver := recording.ReadResolver(w.template.resolverChannel);
    if resolver.None? {
      return None;
    }
    var resolution := ResolutionOf(w.record, resolver.value, selector.value);
    if resolution.None? || exists name :: name in interventions && !CoreName(name) {
      return None;
    }
    assert recording.readLog == ReadLog(w, StateAfter(w, interventions));
    var artifact := Assembled(w, resolution.value, recording.readLog, LogOf(interventions));
    r := Some((artifact, if resolution.value.success then Success else Failure));
  }

  datatype RuntimeError =
    | RunnerUsed | UnknownInterventions | Unresolved | MalformedArtifact | OtherSnapshot | Contradicted

  function FreshRun(w: Workspace100World, interventions: set<string>): Result<ExecutionArtifact, RuntimeError> {
    if !(interventions <= w.Known()) then Err(UnknownInterventions)
    else match ArtifactOf(w, interventions)
         case None => Err(Unresolved)
         case Some(pair) => Ok(pair.0)
  }

  /** A fresh snapshot that may be run once. */
  class Runner {
    const world: Workspace100World
    var used: bool

    constructor (world: Workspace100World)
      ensures this.world == world && !used
    {
      this.world := world;
      used := false;
    }

    method Run(interventions: set<string>) returns (r: Result<ExecutionArtifact, RuntimeError>)
      modifies this
      ensures used
      ensures r == if old(used) then Err(RunnerUsed) else FreshRun(world, interventions)
    {
      if used {
        return Err(RunnerUsed);
      }
      used := true;
      if !(interventions <= world.Known()) {
        return Err(UnknownInterventions);
      }
      var built := BuildArtifact(world, interventions);
      match built {
        case None => r := Err(Unresolved);
        case Some(pair) => r := Ok(pair.0);
      }
    }
  }

  /** `validate_artifact` */
  function ValidateArtifact(w: Workspace100World, artifact: ExecutionArtifact): Result<Outcome, RuntimeError> {
    var interventions := Elements(artifact.interventionLog);
    if !artifact.WellFormed() then Err(MalformedArtifact)
    else if artifact.snapshot != w.snapshot then Err(OtherSnapshot)
    else if !(interventions <= w.Known()) then Err(UnknownInterventions)
    else match ArtifactOf(w, interventions)
         case None => Err(Unresolved)
         case Some(expected) => if artifact != expected.0 then Err(Contradicted) else Ok(expected.1)
  }

  datatype ReplayResult = ReplayResult(trace: Bytes, outcome: Outcome, stateReads: seq<string>)

  function ChannelsOf(artifact: ExecutionArtifact): set<string> {
    set read | read in artifact.stateReadLog :: read.channel
  }

  // ---------- what executions look like ----------

  /** The atom whose presence decides the outcome. */
  function Cause(w: Workspace100World): string {
    if w.record.SelectorAligned() then w.template.refreshAtom else w.template.repairAtom
  }

  ghost function Selected(w: Workspace100World, interventions: set<string>): Option<string> {
    ResolveRecord(w.record, w.template.refreshAtom in interventions, w.template.repairAtom in interventions)
  }

  lemma ResolvedIdDecides(w: Workspace100World, interventions: set<string>, repaired: bool)
    requires w.record.intendedConcreteId != w.record.observedConcreteId && Recordable(w, interventions)
    requires Selected(w, interventions)
      == Some(if repaired then w.record.intendedConcreteId else w.record.observedConcreteId)
    ensures ArtifactOf(w, interventions).Some?
    ensures ArtifactOf(w, interventions).value.1 == Success <==> repaired
  {
    var state := StateAfter(w, interventions);
    assert Resolve(state.resolver, state.selectedSelector) == Selected(w, interventions);
  }

  /** A valid record always resolves: only names that are too long can stop an
      execution. It succeeds under exactly the subsets that contain its one
      causal atom. */
  lemma ExecutionIsExact(w: Workspace100World, interventions: set<string>)
    requires w.Valid()
    ensures ArtifactOf(w, interventions).Some? <==> Recordable(w, interventions)
    ensures Recordable(w, interventions) ==>
      (ArtifactOf(w, interventions).value.1 == Success <==> Cause(w) in interventions)
  {
    OneInterventionDecides(
      w.record, w.template.refreshAtom in interventions, w.template.repairAtom in interventions);
    if Recordable(w, interventions) {
      ResolvedIdDecides(w, interventions, Cause(w) in interventions);
    }
  }

  /** The validator accepts exactly the artifacts that some run of this very
      completion produces, with that run's outcome. */
  lemma ArtifactsAreExact(w: Workspace100World, artifact: ExecutionArtifact, outcome: Outcome)
    ensures ValidateArtifact(w, artifact) == Ok(outcome)
      <==> exists interventions ::
             interventions <= w.Known() && ArtifactOf(w, interventions) == Some((artifact, outcome))
  {
    if ValidateArtifact(w, artifact) == Ok(outcome) {
      var interventions := Elements(artifact.interventionLog);
      assert interventions <= w.Known() && ArtifactOf(w, interventions) == Some((artifact, outcome));
    }
    if interventions :| interventions <= w.Known() && ArtifactOf(w, interventions) == Some((artifact, outcome)) {
      LogReadsBack(interventions);
    }
  }

  ghost function ReplayOf(w: Workspace100World, interventions: set<string>): Option<ReplayResult> {
    match ArtifactOf(w, interventions)
    case None => None
    case Some(pair) =>
      Some(ReplayResult(
        pair.0.publicTrace, pair.1, LogOf({w.template.selectionChannel, w.template.resolverChannel})))
  }

  lemma OwnArtifactValidates(w: Workspace100World, interventions: set<string>)
    requires interventions <= w.Known() && ArtifactOf(w, interventions).Some?
    ensures var (artifact, outcome) := ArtifactOf(w, interventions).value;
      && ValidateArtifact(w, artifact) == Ok(outcome)
      && ChannelsOf(artifact) == {w.template.selectionChannel, w.template.resolverChannel}
  {
    var (artifact, outcome) := ArtifactOf(w, interventions).value;
    ArtifactsAreExact(w, artifact, outcome);
    var performed := ReadLog(w, StateAfter(w, interventions));
    assert performed[0] in performed && performed[1] in performed;
  }

  /** `replay`: run a fresh snapshot, then judge what it produced. */
  method ReplayOnce(w: Workspace100World, interventions: set<string>) returns (r: Result<ReplayResult, RuntimeError>)
    requires w.Valid()
    ensures r.Ok? <==> interventions <= w.Known() && Recordable(w, interventions)
    ensures r.Ok? ==> ReplayOf(w, interventions) == Some(r.value)
  {
    ExecutionIsExact(w, interventions);
    var runner := new Runner(w);
    var artifact := runner.Run(interventions);
    if artifact.Err? {
      return Err(artifact.error);
    }
    OwnArtifactValidates(w, interventions);
    var outcome := ValidateArtifact(w, artifact.value);
    r := Ok(ReplayResult(artifact.value.publicTrace, outcome.value, LogOf(ChannelsOf(artifact.value))));
  }
}
