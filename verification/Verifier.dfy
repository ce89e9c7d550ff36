/** The independent verifier (src/witnessgap/verifier.py): panels rebuilt from
    sealed sources by bitmask, batch attribution, and its certificates. */
module Verifier {
  import opened Model
  import opened Order
  import opened Subsets
  import opened Masks
  import opened Panels

  const MAX_EVIDENCE_BATCH := 4096

  datatype Artifact = Artifact(
    trace: Bytes, terminalState: Bytes, stateReads: seq<string>, interventionLog: Witness)

  datatype Execution = Execution(artifact: Artifact, outcome: Outcome)

  /** A sealed source as the trusted adapter opens it. `decodes(k)` says whether
      the decoding before and after all replays is accepted; `execute(s, k)` is
      the k-th fresh decode, run and artifact validation for the subset `s`;
      `probe(n, k)` the k-th fresh probe. `None` means that it raised. */
  datatype Source = Source(
    commitment: string,
    decodes: nat -> bool,
    execute: (set<string>, nat) -> Option<Execution>,
    probe: (string, nat) -> Option<Bytes>)

  datatype VerificationError =
    | InvalidManifest
    | TooManyAtoms
    | DecodingFailed
    | ReplayFailed
    | ReplaysDiverged
    | LogUnfulfilled
    | UndeclaredChannel
    | BaselineSucceeded
    | ProbeFailed
    | EvidenceUnbound
    | BadBatch
    | SourcesDoNotExhaustFamily
    | NoCompletionMatches

  // ---------- one panel ----------

  /** `VerifiedReceipt`, with the complete artifact. */
  datatype VerifiedReceipt = VerifiedReceipt(interventions: Witness, artifact: Artifact, outcome: Outcome)

  /** What `_verify_source_panel` returns, without its contract digests. */
  datatype SourcePanel = SourcePanel(
    commitment: string, atomNames: seq<string>, receipts: seq<VerifiedReceipt>,
    minimalWitnesses: seq<Witness>, targetFamily: TargetFamily)
  {
    /** What a panel shows of its artifacts. */
    function Shown(): Panel {
      Panel(atomNames, Apply(receipts, ShownReceipt), minimalWitnesses, targetFamily)
    }
  }

  function ShownReceipt(r: VerifiedReceipt): Receipt {
    Receipt(r.interventions, r.artifact.trace, r.outcome)
  }

  ghost function ExecutedReceipt(source: Source): Witness -> VerifiedReceipt {
    w => match source.execute(Elements(w), 0)
         case Some(x) => VerifiedReceipt(w, x.artifact, x.outcome)
         case None => VerifiedReceipt(w, Artifact([], [], [], []), Failure)
  }

  ghost function WorldOf(source: Source): World {
    s => match source.execute(s, 0)
         case Some(x) => Replay(x.artifact.trace, x.outcome)
         case None => Replay([], Failure)
  }

  /** Both fresh executions of `w` succeed, agree, log `w` and stay declared. */
  ghost predicate Fulfils(source: Source, channels: seq<string>, w: Witness) {
    var first := source.execute(Elements(w), 0);
    && first.Some? && source.execute(Elements(w), 1) == first
    && first.value.artifact.interventionLog == w
    && forall c :: c in first.value.artifact.stateReads ==> c in channels
  }

  ghost predicate AllFulfil(source: Source, channels: seq<string>, seen: seq<Witness>) {
    seen == [] || (AllFulfil(source, channels, seen[..|seen| - 1]) && Fulfils(source, channels, seen[|seen| - 1]))
  }

  lemma {:induction false} AllFulfilMeans(source: Source, channels: seq<string>, seen: seq<Witness>)
    ensures AllFulfil(source, channels, seen) <==> forall w :: w in seen ==> Fulfils(source, channels, w)
  {
    if seen != [] {
      var last := seen[|seen| - 1];
      AllFulfilMeans(source, channels, seen[..|seen| - 1]);
      assert seen == seen[..|seen| - 1] + [last];
    }
  }

  ghost predicate PanelAccepted(source: Source, atoms: seq<Atom>, channels: seq<string>) {
    && |atoms| <= MAX_ATOMS && source.decodes(0) && source.decodes(1)
    && AllFulfil(source, channels, AllSubsets(AtomNames(atoms)))
    && WorldOf(source)({}).outcome == Failure
  }

  /** The masks among `masks` whose decoded subset succeeds. */
  ghost function SuccessfulAmong(source: Source, names: seq<string>, masks: seq<nat>): set<nat> {
    set m | m in masks && Succeeds(WorldOf(source))(Elements(WitnessForMask(m, names)))
  }

  /** Executes one subset twice and compares. */
  method ExecuteTwice(source: Source, channels: seq<string>, w: Witness)
    returns (r: Result<Execution, VerificationError>)
    ensures r.Ok? <==> Fulfils(source, channels, w)
    ensures r.Ok? ==> source.execute(Elements(w), 0) == Some(r.value)
  {
    var first := source.execute(Elements(w), 0);
    var second := source.execute(Elements(w), 1);
    if first.None? || second.None? {
      return Err(ReplayFailed);
    }
    if first.value.artifact != second.value.artifact || first.value.outcome != second.value.outcome {
      return Err(ReplaysDiverged);
    }
    if first.value.artifact.interventionLog != w {
      return Err(LogUnfulfilled);
    }
    if exists c :: c in first.value.artifact.stateReads && c !in channels {
      return Err(UndeclaredChannel);
    }
    r := Ok(first.value);
  }

  method ReplayMasks(source: Source, names: seq<string>, channels: seq<string>, masks: seq<nat>)
    returns (r: Result<(seq<VerifiedReceipt>, set<nat>), VerificationError>)
    ensures r.Ok? <==> AllFulfil(source, channels, Apply(masks, Decoder(names)))
    ensures r.Ok? ==> r.value.0 == Apply(Apply(masks, Decoder(names)), ExecutedReceipt(source))
    ensures r.Ok? ==> r.value.1 == SuccessfulAmong(source, names, masks)
  {
    var receipts: seq<VerifiedReceipt> := [];
    var successfulMasks: set<nat> := {};
    ghost var seen := Apply(masks, Decoder(names));
    ghost var expected := Apply(seen, ExecutedReceipt(source));
    for i := 0 to |masks|
      invariant AllFulfil(source, channels, seen[..i])
      invariant receipts == expected[..i]
      invariant successfulMasks == SuccessfulAmong(source, names, masks[..i])
    {
      var selected := WitnessForMask(masks[i], names);
      var execution := ExecuteTwice(source, channels, selected);
      if execution.Err? {
        OneFails(source, channels, seen, i);
        return Err(execution.error);
      }
      var receipt := VerifiedReceipt(selected, execution.value.artifact, execution.value.outcome);
      PrefixGrows(receipts, expected, i, receipt);
      receipts := receipts + [receipt];
      if execution.value.outcome == Success {
        successfulMasks := successfulMasks + {masks[i]};
      }
      assert seen[..i + 1][..i] == seen[..i];
      assert masks[..i + 1] == masks[..i] + [masks[i]];
    }
    assert seen[..|masks|] == seen && masks[..|masks|] == masks;
    r := Ok((receipts, successfulMasks));
  }

  lemma OneFails(source: Source, channels: seq<string>, seen: seq<Witness>, i: nat)
    requires i < |seen| && !Fulfils(source, channels, seen[i])
    ensures !AllFulfil(source, channels, seen)
  {
    AllFulfilMeans(source, channels, seen);
    assert seen[i] in seen;
  }

  lemma BaselineOf(atoms: seq<Atom>, source: Source)
    ensures var receipts := Apply(AllSubsets(AtomNames(atoms)), ExecutedReceipt(source));
      receipts != [] && receipts[0].outcome == WorldOf(source)({}).outcome
  {
    AllSubsetsLeads(AtomNames(atoms));
    assert Elements<string>([]) == {};
  }

  lemma ReceiptsShow(source: Source, subsets: seq<Witness>)
    ensures Apply(Apply(subsets, ExecutedReceipt(source)), ShownReceipt) == Apply(subsets, ReceiptOf(WorldOf(source)))
  {
    forall w ensures ShownReceipt(ExecutedReceipt(source)(w)) == ReceiptOf(WorldOf(source))(w) {
    }
  }

  /** `_verify_source_panel`: bitmask enumeration yields the specified panel. */
  method VerifySourcePanel(source: Source, atoms: seq<Atom>, channels: seq<string>)
    returns (r: Result<SourcePanel, VerificationError>)
    requires StrictlySorted(StringLe, AtomNames(atoms))
    ensures r.Ok? <==> PanelAccepted(source, atoms, channels)
    ensures r.Ok? ==> r.value.Shown() == PanelOf(atoms, WorldOf(source))
    ensures r.Ok? ==> r.value.commitment == source.commitment
    ensures r.Ok? ==> r.value.receipts == Apply(AllSubsets(AtomNames(atoms)), ExecutedReceipt(source))
  {
    var names := AtomNames(atoms);
    if !source.decodes(0) {
      return Err(DecodingFailed);
    }
    if |atoms| > MAX_ATOMS {
      return Err(TooManyAtoms);
    }
    var masks := SortedMasks(names);
    SortedMasksDecode(names);
    var replayed := ReplayMasks(source, names, channels, masks);
    if replayed.Err? {
      return Err(replayed.error);
    }
    var (receipts, successfulMasks) := replayed.value;
    BaselineOf(atoms, source);
    ReceiptsShow(source, AllSubsets(names));
    if receipts[0].outcome != Failure {
      return Err(BaselineSucceeded);
    }
    MinimalByMasksAgrees(names, Succeeds(WorldOf(source)), successfulMasks);
    MinimalWitnessesProject(atoms, Succeeds(WorldOf(source)));
    var minimal := MinimalByMasks(masks, successfulMasks, names);
    var family := TargetFamilyOf(AtomTargets(atoms), minimal);
    if !source.decodes(1) {
      return Err(DecodingFailed);
    }
    r := Ok(SourcePanel(source.commitment, names, receipts, minimal, family));
  }

  // ---------- probes ----------

  ghost predicate ProbeReproduces(source: Source, name: string) {
    source.probe(name, 0).Some? && source.probe(name, 1) == source.probe(name, 0)
  }

  type ProbeTable = map<(nat, string), Bytes>

  ghost predicate TableCovers(table: ProbeTable, sources: seq<Source>, names: seq<string>) {
    forall i: nat, n :: i < |sources| && n in names ==>
      && ProbeReproduces(sources[i], n)
      && (i, n) in table && Some(table[(i, n)]) == sources[i].probe(n, 0)
  }

  /** `_verify_batch_probes`: every requested value is present and reproduced. */
  method VerifyBatchProbes(sources: seq<Source>, names: seq<string>)
    returns (r: Result<ProbeTable, VerificationError>)
    ensures r.Ok? <==> forall s, n :: s in sources && n in names ==> ProbeReproduces(s, n)
    ensures r.Ok? ==> TableCovers(r.value, sources, names)
  {
    var table: ProbeTable := map[];
    for i := 0 to |sources|
      invariant TableCovers(table, sources[..i], names)
    {
      ghost var before := table;
      for j := 0 to |names|
        invariant TableCovers(table, sources[..i], names)
        invariant TableRow(table, sources, i, names[..j])
      {
        var first := sources[i].probe(names[j], 0);
        var second := sources[i].probe(names[j], 1);
        if first.None? || second != first {
          assert sources[i] in sources && names[j] in names;
          return Err(ProbeFailed);
        }
        table := table[(i, names[j]) := first.value];
      }
      assert names[..|names|] == names;
    }
    assert sources[..|sources|] == sources;
    r := Ok(table);
  }

  ghost predicate TableRow(table: ProbeTable, sources: seq<Source>, i: nat, names: seq<string>)
    requires i < |sources|
  {
    forall n :: n in names ==>
      && ProbeReproduces(sources[i], n)
      && (i, n) in table && Some(table[(i, n)]) == sources[i].probe(n, 0)
  }
}
