/** The small two-completion workspace world, whose read log depends on what was
    selected, and its independent artifact validator
    (src/witnessgap/worlds/workspace.py). */
module WorkspaceWorld {
  import opened Model
  import opened Order
  import opened Panels
  import opened SingleCause

  const REFRESH := "refresh_draft_store"
  const REPAIR := "repair_draft_selection"
  const ATOMS := [Atom(REFRESH, "environment"), Atom(REPAIR, "policy")]
  const APPROVED_REVISION := "release-notes-v21"
  const PREVIOUS_REVISION := "release-notes-v17"
  const APPROVED := "approved"
  const SELECTION_CHANNEL := "policy_selection"
  const EPOCH_CHANNEL := "draft_store_epoch"

  datatype Cause = Environment | Policy

  datatype WorkspaceState = WorkspaceState(approvedPointer: string, selectedPointer: string)

  datatype StateRead = StateRead(sequence: nat, channel: string, value: string)

  datatype Document =
    | TraceDocument(draft: string, interventions: Witness, approved: bool)
    | TerminalDocument(approved: bool, published: string)

  /** The JSON library: parsing inverts encoding. */
  datatype Json = Json(encode: Document -> Bytes, parse: Bytes -> Option<Document>) {
    ghost predicate RoundTrips() {
      forall d :: parse(encode(d)) == Some(d)
    }
  }

  datatype ExecutionArtifact = ExecutionArtifact(
    snapshot: string, publicTrace: Bytes, terminalState: Bytes, readLog: seq<StateRead>, interventionLog: Witness)

  function InitialState(cause: Cause): WorkspaceState {
    if cause == Environment then WorkspaceState(PREVIOUS_REVISION, APPROVED)
    else WorkspaceState(APPROVED_REVISION, PREVIOUS_REVISION)
  }

  /** `_apply_interventions` */
  method ApplyInterventions(state: WorkspaceState, interventions: set<string>) returns (updated: WorkspaceState)
    ensures updated == StateAfter(state, interventions)
  {
    updated := state;
    if REFRESH in interventions {
      updated := WorkspaceState(APPROVED_REVISION, updated.selectedPointer);
    }
    if REPAIR in interventions {
      updated := WorkspaceState(updated.approvedPointer, APPROVED);
    }
  }

  function StateAfter(state: WorkspaceState, interventions: set<string>): WorkspaceState {
    WorkspaceState(
      if REFRESH in interventions then APPROVED_REVISION else state.approvedPointer,
      if REPAIR in interventions then APPROVED else state.selectedPointer)
  }

  /** What an execution reads: the store only when the selection points at it. */
  function ReadsOf(state: WorkspaceState): seq<StateRead> {
    [StateRead(0, SELECTION_CHANNEL, state.selectedPointer)]
    + if state.selectedPointer == APPROVED then [StateRead(1, EPOCH_CHANNEL, state.approvedPointer)] else []
  }

  function DocumentOf(state: WorkspaceState): string {
    if state.selectedPointer == APPROVED then state.approvedPointer else state.selectedPointer
  }

  function Artifact(
    json: Json, snapshot: string, document: string, readLog: seq<StateRead>, log: Witness): ExecutionArtifact
  {
    var approved := document == APPROVED_REVISION;
    ExecutionArtifact(
      snapshot, json.encode(TraceDocument(document, log, approved)), json.encode(TerminalDocument(approved, document)),
      readLog, log)
  }

  /** The artifact of one run, as a function of the world and the subset. */
  function ArtifactOf(json: Json, cause: Cause, snapshot: string, interventions: set<string>): ExecutionArtifact {
    var state := StateAfter(InitialState(cause), interventions);
    Artifact(json, snapshot, DocumentOf(state), ReadsOf(state), LogOf(interventions))
  }

  /** The only state view exposed to task execution. */
  class RecordingState {
    const snapshot: WorkspaceState
    var readLog: seq<StateRead>

    constructor (snapshot: WorkspaceState)
      ensures this.snapshot == snapshot && readLog == []
    {
      this.snapshot := snapshot;
      readLog := [];
    }

    /** `read`; `None` stands for `KeyError`, and then nothing is recorded. */
    method Read(channel: string) returns (value: Option<string>)
      modifies this
      ensures value ==
        if channel == SELECTION_CHANNEL then Some(snapshot.selectedPointer)
        else if channel == EPOCH_CHANNEL then Some(snapshot.approvedPointer) else None
      ensures readLog == old(readLog) + if value.Some? then [StateRead(|old(readLog)|, channel, value.value)] else []
    {
      if channel == SELECTION_CHANNEL {
        value := Some(snapshot.selectedPointer);
      } else if channel == EPOCH_CHANNEL {
        value := Some(snapshot.approvedPointer);
      } else {
        return None;
      }
      readLog := readLog + [StateRead(|readLog|, channel, value.value)];
    }
  }

  datatype RunError = RunnerUsed | UnknownInterventions

  /** A single-use runner over one fresh snapshot. */
  class Runner {
    const cause: Cause
    const snapshot: string
    var used: bool

    constructor (cause: Cause, snapshot: string)
      ensures this.cause == cause && this.snapshot == snapshot && !used
    {
      this.cause := cause;
      this.snapshot := snapshot;
      used := false;
    }

    method Run(json: Json, interventions: set<string>) returns (r: Result<ExecutionArtifact, RunError>)
      modifies this
      ensures used
      ensures r ==
        if old(used) then Err(RunnerUsed)
        else if !(interventions <= {REFRESH, REPAIR}) then Err(UnknownInterventions)
        else Ok(ArtifactOf(json, cause, snapshot, interventions))
    {
      if used {
        return Err(RunnerUsed);
      }
      used := true;
      if !(interventions <= {REFRESH, REPAIR}) {
        return Err(UnknownInterventions);
      }
      var state := ApplyInterventions(InitialState(cause), interventions);
      var recording := new RecordingState(state);
      ChannelsDiffer();
      var selected := recording.Read(SELECTION_CHANNEL);
      var document := selected.value;
      if document == APPROVED {
        var stored := recording.Read(EPOCH_CHANNEL);
        document := stored.value;
      }
      assert recording.readLog == ReadsOf(state);
      r := Ok(Artifact(json, snapshot, document, recording.readLog, LogOf(interventions)));
    }
  }

  lemma ChannelsDiffer()
    ensures SELECTION_CHANNEL != EPOCH_CHANNEL
  {
    assert SELECTION_CHANNEL[0] != EPOCH_CHANNEL[0];
  }

  /** `_canonical_object` */
  function CanonicalObject(json: Json, payload: Bytes): Option<Document> {
    match json.parse(payload)
    case None => None
    case Some(d) => if json.encode(d) == payload then Some(d) else None
  }

  /** `validate_artifact`; `None` stands for its refusals. */
  method ValidateArtifact(
      json: Json, cause: Cause, snapshot: string, artifact: ExecutionArtifact)
    returns (outcome: Option<Outcome>)
    ensures outcome == Verdict(json, cause, snapshot, artifact)
  {
    var interventions := Elements(artifact.interventionLog);
    if !SortedUnique(artifact.interventionLog) || artifact.snapshot != snapshot
      || !(interventions <= {REFRESH, REPAIR})
    {
      return None;
    }
    var state := ApplyInterventions(InitialState(cause), interventions);
    var document := if state.selectedPointer == APPROVED then state.approvedPointer else state.selectedPointer;
    var approved := document == APPROVED_REVISION;
    var expectedReads := [StateRead(0, SELECTION_CHANNEL, state.selectedPointer)];
    if state.selectedPointer == APPROVED {
      expectedReads := expectedReads + [StateRead(1, EPOCH_CHANNEL, state.approvedPointer)];
    }
    assert expectedReads == ReadsOf(state);
    if artifact.readLog != expectedReads {
      return None;
    }
    if CanonicalObject(json, artifact.terminalState) != Some(TerminalDocument(approved, document)) {
      return None;
    }
    var trace := TraceDocument(document, artifact.interventionLog, approved);
    if CanonicalObject(json, artifact.publicTrace) != Some(trace) {
      return None;
    }
    outcome := Some(if approved then Success else Failure);
  }

  function Verdict(json: Json, cause: Cause, snapshot: string, artifact: ExecutionArtifact): Option<Outcome> {
    var interventions := Elements(artifact.interventionLog);
    var state := StateAfter(InitialState(cause), interventions);
    var document := DocumentOf(state);
    var approved := document == APPROVED_REVISION;
    if SortedUnique(artifact.interventionLog) && artifact.snapshot == snapshot && interventions <= {REFRESH, REPAIR}
       && artifact.readLog == ReadsOf(state)
       && CanonicalObject(json, artifact.terminalState) == Some(TerminalDocument(approved, document))
       && CanonicalObject(json, artifact.publicTrace)
          == Some(TraceDocument(document, artifact.interventionLog, approved))
    then Some(if approved then Success else Failure)
    else None
  }

  function OutcomeOf(cause: Cause, interventions: set<string>): Outcome {
    if DocumentOf(StateAfter(InitialState(cause), interventions)) == APPROVED_REVISION then Success else Failure
  }

  /** Running `interventions` produces this artifact with this outcome. */
  ghost predicate Produces(
    json: Json, cause: Cause, snapshot: string, interventions: set<string>, artifact: ExecutionArtifact,
    outcome: Outcome)
  {
    && interventions <= {REFRESH, REPAIR}
    && artifact == ArtifactOf(json, cause, snapshot, interventions) && outcome == OutcomeOf(cause, interventions)
  }

  lemma AcceptedIsProduced(json: Json, cause: Cause, snapshot: string, artifact: ExecutionArtifact, outcome: Outcome)
    requires Verdict(json, cause, snapshot, artifact) == Some(outcome)
    ensures Produces(json, cause, snapshot, Elements(artifact.interventionLog), artifact, outcome)
  {
    StringsAreOrdered();
    SortedSetUnique(StringLe, Elements(artifact.interventionLog), artifact.interventionLog);
  }

  lemma ProducedIsAccepted(
      json: Json, cause: Cause, snapshot: string, interventions: set<string>, artifact: ExecutionArtifact,
      outcome: Outcome)
    requires json.RoundTrips() && Produces(json, cause, snapshot, interventions, artifact, outcome)
    ensures Verdict(json, cause, snapshot, artifact) == Some(outcome)
  {
    LogReadsBack(interventions);
  }

  /** Although it is written independently of the runner, the validator accepts
      exactly the artifacts that the runner can produce. */
  lemma ValidatorMatchesRunner(
      json: Json, cause: Cause, snapshot: string, artifact: ExecutionArtifact, outcome: Outcome)
    requires json.RoundTrips()
    ensures Verdict(json, cause, snapshot, artifact) == Some(outcome)
      <==> exists interventions :: Produces(json, cause, snapshot, interventions, artifact, outcome)
  {
    if Verdict(json, cause, snapshot, artifact) == Some(outcome) {
      AcceptedIsProduced(json, cause, snapshot, artifact, outcome);
    }
    if interventions :| Produces(json, cause, snapshot, interventions, artifact, outcome) {
      ProducedIsAccepted(json, cause, snapshot, interventions, artifact, outcome);
    }
  }

  /** One completion is repaired by refreshing and only by that, the other by
      repairing the selection and only by that. */
  lemma WorkspaceCauses(cause: Cause, interventions: set<string>)
    ensures OutcomeOf(cause, interventions) == Success
      <==> (if cause == Environment then REFRESH else REPAIR) in interventions
  {
    assert PREVIOUS_REVISION[15] != APPROVED_REVISION[15];
    assert |PREVIOUS_REVISION| != |APPROVED| && |APPROVED_REVISION| != |APPROVED|;
  }

  lemma AtomsAreSorted()
    ensures AtomNames(ATOMS) == [REFRESH, REPAIR] && StrictlySorted(StringLe, AtomNames(ATOMS))
    ensures AtomTargets(ATOMS) == map[REFRESH := "environment", REPAIR := "policy"]
    ensures REFRESH != REPAIR
  {
    assert REFRESH[2] < REPAIR[2];
    assert REFRESH[1..][1..][0] == REFRESH[2] && REPAIR[1..][1..][0] == REPAIR[2];
    assert LexLe(CharLe, REFRESH[1..][1..], REPAIR[1..][1..]);
    assert LexLe(CharLe, REFRESH[1..], REPAIR[1..]);
    assert ATOMS[..1] == [ATOMS[0]] && [ATOMS[0]][..0] == [];
    assert AtomTargets([ATOMS[0]]) == map[REFRESH := "environment"];
  }

  /** The repair panel of either completion, from any replay with that outcome. */
  lemma WorkspacePanel(cause: Cause, world: World)
    requires forall s :: s <= {REFRESH, REPAIR} ==> world(s).outcome == OutcomeOf(cause, s)
    ensures var atom := if cause == Environment then REFRESH else REPAIR;
      && PanelOf(ATOMS, world).minimalWitnesses == [[atom]]
      && PanelOf(ATOMS, world).targetFamily == [[if cause == Environment then "environment" else "policy"]]
  {
    var atom := if cause == Environment then REFRESH else REPAIR;
    AtomsAreSorted();
    forall s | s <= {REFRESH, REPAIR} ensures world(s).outcome == Success <==> atom in s {
      WorkspaceCauses(cause, s);
    }
    assert Elements(AtomNames(ATOMS)) == {REFRESH, REPAIR};
    SingleCausePanel(ATOMS, world, atom);
  }
}
