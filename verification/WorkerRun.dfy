/** Participant claims and the normalisation of one worker exit
    (src/witnessgap/workspace100/worker.py:582-698,
    src/witnessgap/workspace100/evidence.py:160-292). */
module WorkerRun {
  import opened Model
  import opened Order
  import opened Attribution
  import opened Exchange

  const MAX_WITNESS_ATOMS := 12

  datatype ParticipantClaim = ParticipantClaim(
    kind: VerdictKind,
    targetFamily: Option<TargetFamily>,
    minimalWitnesses: Option<seq<Witness>>,
    unknownReason: Option<UnknownReason>)
  {
    /** `ParticipantClaim.validate`, without identifier syntax. */
    predicate Valid() {
      match kind
      case IdentifiedSingleton =>
        && unknownReason.None?
        && targetFamily.Some? && |targetFamily.value| == 1 && |targetFamily.value[0]| == 1
        && minimalWitnesses.Some? && |minimalWitnesses.value| == 1
        && 0 < |minimalWitnesses.value[0]| <= MAX_WITNESS_ATOMS
        && SortedUnique(minimalWitnesses.value[0])
      case NotIdentifiable =>
        unknownReason.Some? && targetFamily.None? && minimalWitnesses.None?
      case _ => false
    }
  }

  /** The JSON library: an encoder, and a parser that may fail. Nothing is
      assumed about either. */
  datatype Codec = Codec(encode: ParticipantClaim -> Bytes, parse: Bytes -> Option<ParticipantClaim>)

  /** `ParticipantClaim.from_canonical_bytes` */
  function FromCanonicalBytes(codec: Codec, payload: Bytes): Option<ParticipantClaim> {
    if payload == [] || |payload| > MAX_CLAIM_BYTES then None
    else
      match codec.parse(payload)
      case None => None
      case Some(claim) =>
        if claim.Valid() && codec.encode(claim) == payload then Some(claim) else None
  }

  datatype FailureKind = WorkerTimedOut | WorkerOutputLimit | NonzeroExit | EmptyOutput | InvalidClaim

  datatype RunOutcome = Claimed(claim: ParticipantClaim) | Failed(failure: FailureKind)

  /** `_normalize_worker_exit` */
  function NormalizeWorkerExit(codec: Codec, limits: Limits, raw: RawWorkerExit): RunOutcome {
    if |raw.stdout| > limits.stdoutBytes || |raw.stderr| > limits.stderrBytes then Failed(WorkerOutputLimit)
    else if raw.kind == TimedOut then Failed(WorkerTimedOut)
    else if raw.kind == OutputLimitExceeded then Failed(WorkerOutputLimit)
    else if raw.returncode != 0 then Failed(NonzeroExit)
    else if raw.stdout == [] then Failed(EmptyOutput)
    else
      match FromCanonicalBytes(codec, raw.stdout)
      case None => Failed(InvalidClaim)
      case Some(claim) => Claimed(claim)
  }

  /** A claim is recorded exactly for a clean exit within the limits whose whole
      standard output is the canonical encoding of that valid claim. */
  lemma ClaimsAreCanonical(codec: Codec, limits: Limits, raw: RawWorkerExit, claim: ParticipantClaim)
    ensures NormalizeWorkerExit(codec, limits, raw) == Claimed(claim) <==>
      && raw.kind == Exited && raw.returncode == 0
      && |raw.stdout| <= limits.stdoutBytes && |raw.stderr| <= limits.stderrBytes
      && 0 < |raw.stdout| <= MAX_CLAIM_BYTES
      && codec.parse(raw.stdout) == Some(claim) && claim.Valid()
      && raw.stdout == codec.encode(claim)
  {
  }

  /** What the failure taxonomy means, for the record of a finished exchange. */
  ghost predicate Diagnoses(s: Setting, kind: ExitKind, returncode: int, codec: Codec, outcome: RunOutcome) {
    match outcome
    case Claimed(claim) =>
      && kind == Exited && returncode == 0
      && s.child.out == codec.encode(claim) && claim.Valid()
      && 0 < |s.child.out| <= s.limits.stdoutBytes && |s.child.err| <= s.limits.stderrBytes
    case Failed(WorkerTimedOut) => kind == TimedOut
    case Failed(WorkerOutputLimit) =>
      && kind == OutputLimitExceeded
      && (|s.child.out| > s.limits.stdoutBytes || |s.child.err| > s.limits.stderrBytes)
    case Failed(NonzeroExit) => kind == Exited && returncode != 0
    case Failed(EmptyOutput) => kind == Exited && returncode == 0 && s.child.out == []
    case Failed(InvalidClaim) =>
      && kind == Exited && returncode == 0 && s.child.out != []
      && forall claim: ParticipantClaim ::
           claim.Valid() && codec.encode(claim) == s.child.out ==> codec.parse(s.child.out) != Some(claim)
  }

  /** From the child's complete streams to the recorded outcome: a claim comes
      only from an untruncated canonical encoding, and every other ended run
      falls under the one failure kind that its ending calls for. */
  lemma OutcomesAreExplained(codec: Codec, s: Setting, script: seq<Tick>)
    requires s.limits.Valid() && s.request != []
    requires Play(s, START, script).Ended?
    ensures Sound(s, Play(s, START, script).counters)
    ensures var e := Play(s, START, script);
      var raw := ExitRecord(s, e.kind, e.returncode, e.counters);
      Diagnoses(s, e.kind, e.returncode, codec, NormalizeWorkerExit(codec, s.limits, raw))
  {
    RecordsAreFaithful(s, script);
  }

  /** Where the parser inverts the encoder, a child that writes one valid claim
      within the limits and exits cleanly has that claim recorded. */
  lemma HonestClaimsAreRecorded(codec: Codec, s: Setting, script: seq<Tick>, claim: ParticipantClaim)
    requires s.limits.Valid() && s.request != []
    requires claim.Valid() && s.child.out == codec.encode(claim) && codec.parse(s.child.out) == Some(claim)
    requires 0 < |s.child.out| <= s.limits.stdoutBytes && |s.child.err| <= s.limits.stderrBytes
    requires Play(s, START, script).Ended?
    ensures Sound(s, Play(s, START, script).counters)
    ensures var e := Play(s, START, script);
      var raw := ExitRecord(s, e.kind, e.returncode, e.counters);
      && e.kind != OutputLimitExceeded
      && NormalizeWorkerExit(codec, s.limits, raw)
         == if e.kind == TimedOut then Failed(WorkerTimedOut)
            else if e.returncode != 0 then Failed(NonzeroExit)
            else Claimed(claim)
  {
    RecordsAreFaithful(s, script);
  }

  datatype InvokeError = RequestOutOfBounds | HarnessFailed(error: HarnessError)

  /** `run_worker_once` over the local backend: a request outside its bounds is
      refused, and any other gives one exchange and one normalised outcome. */
  method RunWorkerOnce(codec: Codec, child: Child, request: Bytes, limits: Limits, script: seq<Tick>)
    returns (r: Option<Result<RunOutcome, InvokeError>>)
    requires limits.Valid()
    ensures r == Some(Err(RequestOutOfBounds)) <==> request == [] || |request| > MAX_REQUEST_BYTES
    ensures 1 <= |request| <= MAX_REQUEST_BYTES ==>
      var s := Setting(child, request, limits);
      match Play(s, START, script)
      case Running(_) => r == None
      case Aborted(error) => r == Some(Err(HarnessFailed(error)))
      case Ended(kind, returncode, _) =>
        r.Some? && r.value.Ok? && Diagnoses(s, kind, returncode, codec, r.value.value)
  {
    if request == [] || |request| > MAX_REQUEST_BYTES {
      return Some(Err(RequestOutOfBounds));
    }
    var state := new ExchangeState(child, request, limits);
    var exit := state.ExchangeWithProcess(script);
    ghost var s := Setting(child, request, limits);
    if exit.None? {
      return None;
    }
    if exit.value.Err? {
      return Some(Err(HarnessFailed(exit.value.error)));
    }
    OutcomesAreExplained(codec, s, script);
    r := Some(Ok(NormalizeWorkerExit(codec, limits, exit.value.value)));
  }
}
