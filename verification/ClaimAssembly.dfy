/** Assembling a claim set with the checks of its constructor and of its
    bindings, and evaluating under a schedule
    (src/witnessgap/workspace100/claims.py:383-667). */
module ClaimAssembly {
  import opened Model
  import opened Order
  import opened WorkerRun
  import opened Claims
  import opened ClaimRuns
  import opened ClaimContext

  // ---------- the checks ----------

  /** Method names and digests and the public cases repeat nothing. */
  predicate SetupCheck(s: Setup) {
    && |Elements(Apply(s.methods, MethodId))| == |s.methods|
    && |Elements(Apply(s.methods, MethodDigest))| == |s.methods|
    && |Elements(s.cases)| == |s.cases|
  }

  lemma SetupIsValid(s: Setup)
    ensures SetupCheck(s) <==> s.Valid()
  {
    DistinctCardinality(Apply(s.methods, MethodId));
    DistinctCardinality(Apply(s.methods, MethodDigest));
    DistinctCardinality(s.cases);
  }

  /** `_validate_claim_set_runs`: the constructor's checks on its runs. */
  method ValidateRuns(c: ClaimSet, cases: nat) returns (ok: bool)
    requires cases > 0 && Distinct(Apply(c.methods, MethodDigest))
    ensures ok <==> ValidRuns(c, cases)
  {
    if |Elements(Apply(c.runs, KeyOfRun))| != |c.runs| {
      return false;
    }
    if exists r :: r in c.runs && r.methodDigest !in Apply(c.methods, MethodDigest) {
      return false;
    }
    if c.runs != Sort(RunOrder(c.methods), c.runs) {
      return false;
    }
    ok := ValidateContext(c, cases);
  }

  /** Every run is of a public case and its request, and every method covers
      the public cases. */
  predicate BoundToCases(s: Setup, c: ClaimSet) {
    && (forall r :: r in c.runs ==>
          EvidenceOf(r) in s.cases && r.record.requestDigest == s.request(EvidenceOf(r)))
    && forall d :: d in Apply(c.methods, MethodDigest) ==> Elements(EvidenceList(c.runs, d)) == Elements(s.cases)
  }

  /** What the constructor and the bindings accept. */
  ghost function Passes(s: Setup): ClaimSet -> bool {
    (c: ClaimSet) => ValidRuns(c, |s.cases|) && BoundToCases(s, c)
  }

  method CheckClaimSet(s: Setup, c: ClaimSet) returns (r: Result<ClaimSet, ClaimError>)
    requires s.cases != [] && Distinct(Apply(c.methods, MethodDigest))
    ensures r.Ok? <==> Passes(s)(c)
    ensures r.Ok? ==> r.value == c
  {
    var valid := ValidateRuns(c, |s.cases|);
    if !valid {
      return Err(InvalidRuns);
    }
    if !BoundToCases(s, c) {
      return Err(NotThePublicCases);
    }
    r := Ok(c);
  }

  /** Everything that assembly checks. */
  ghost predicate Accepted(s: Setup, records: seq<WorkerRecord>) {
    && s.Valid() && s.cases != []
    && |records| == |s.methods| * |s.cases| && Buildable(s, records)
    && Passes(s)(ClaimSetOf(s, records))
  }

  /** `build_workspace100_claim_set` */
  method BuildClaimSet(s: Setup, records: seq<WorkerRecord>) returns (r: Result<ClaimSet, ClaimError>)
    ensures r.Ok? <==> Accepted(s, records)
    ensures r.Ok? ==> r.value == ClaimSetOf(s, records)
  {
    SetupIsValid(s);
    if !SetupCheck(s) || s.cases == [] {
      return Err(InvalidSetup);
    }
    if |records| != |s.methods| * |s.cases| {
      return Err(WrongCount);
    }
    if |Elements(Apply(records, RecordKey))| != |records| {
      return Err(DuplicateKeys);
    }
    var runs := BindRuns(s, records);
    EachIsBound(s, records);
    if runs.Err? {
      return Err(runs.error);
    }
    r := CheckClaimSet(s, ClaimSet(s.backend, s.limits, s.methods, Sort(RunOrder(s.methods), runs.value)));
  }

  lemma EachIsBound(s: Setup, records: seq<WorkerRecord>)
    ensures AllBound(s, records) <==> forall r :: r in records ==> Bound(s, r)
  {
    if AllBound(s, records) {
      forall r | r in records ensures Bound(s, r) {
        var i :| 0 <= i < |records| && records[i] == r;
      }
    }
  }

  // ---------- what is accepted ----------

  /** One verified record for every method and case, and requests that tell the
      cases apart. */
  ghost predicate Complete(s: Setup, records: seq<WorkerRecord>) {
    && Releasable(s) && s.cases != []
    && ValidOrder(s, Apply(records, RecordKey))
    && forall r :: r in records ==> Verified(s, r.Key(), r)
  }

  /** What the records answer. */
  function AnswersOf(records: seq<WorkerRecord>): RunKey -> RunOutcome {
    (k: RunKey) =>
      var i := Position(Apply(records, RecordKey), k);
      if i < |records| then records[i].outcome else Failed(EmptyOutput)
  }

  lemma CompleteIsEvaluated(s: Setup, records: seq<WorkerRecord>)
    requires Complete(s, records)
    ensures records == Apply(Apply(records, RecordKey), RecordFor(s, AnswersOf(records)))
  {
    var order, f := Apply(records, RecordKey), AnswersOf(records);
    DistinctCardinality(order);
    forall i | 0 <= i < |records| ensures records[i] == RecordFor(s, f)(order[i]) {
      PositionIsUnique(order, i);
      assert records[i] in records;
    }
  }

  lemma {:induction false} GridSize(digests: seq<string>, evidence: seq<string>)
    ensures |Grid(digests, evidence)| == |digests| * |evidence|
  {
    if digests != [] {
      GridSize(digests[..|digests| - 1], evidence);
      RowsAdd(|digests| - 1, |evidence|);
    }
  }

  lemma RowsAdd(rows: nat, width: nat)
    ensures rows * width + width == (rows + 1) * width
  {
  }

  lemma EvaluatedIsBound(s: Setup, answer: RunKey -> RunOutcome, order: seq<RunKey>)
    requires s.Valid() && ValidOrder(s, order)
    ensures BoundToCases(s, Evaluated(s, answer, order))
  {
    var c := Evaluated(s, answer, order);
    forall r | r in c.runs ensures EvidenceOf(r) in s.cases && r.record.requestDigest == s.request(EvidenceOf(r)) {
      RunsComeFromKeys(s, answer, order, r);
    }
    forall d | d in Apply(s.methods, MethodDigest) ensures Elements(EvidenceList(c.runs, d)) == Elements(s.cases) {
      EvaluatedEvidence(s, answer, order, d);
    }
  }

  lemma RunsFillGrid(c: ClaimSet, cases: nat)
    requires ValidRuns(c, cases)
    ensures |c.runs| == |c.methods| * cases
  {
    RunsAreTheGrid(c, cases);
    GridSize(Apply(c.methods, MethodDigest), Covered(c));
    assert |Apply(c.runs, KeyOfRun)| == |c.runs|;
  }

  lemma EvaluatedIsAccepted(s: Setup, answer: RunKey -> RunOutcome, order: seq<RunKey>)
    requires Releasable(s) && s.cases != [] && ValidOrder(s, order)
    ensures Accepted(s, Apply(order, RecordFor(s, answer)))
  {
    var records := Apply(order, RecordFor(s, answer));
    OrderIsBuildable(s, answer, order);
    EvaluatedSetsAreValid(s, answer, order);
    EvaluatedIsBound(s, answer, order);
    RunsFillGrid(ClaimSetOf(s, records), |s.cases|);
    SameMultiset(Apply(records, ToRun(s)), ClaimSetOf(s, records).runs);
  }

  /** The run of a record is among the sorted ones, and every run is one. */
  lemma RecordsAreRuns(s: Setup, records: seq<WorkerRecord>, run: ClaimRun)
    ensures run in ClaimSetOf(s, records).runs <==> exists r :: r in records && run == ToRun(s)(r)
  {
    var unsorted := Apply(records, ToRun(s));
    SameMultiset(unsorted, ClaimSetOf(s, records).runs);
    assert run in ClaimSetOf(s, records).runs <==> run in Elements(unsorted);
    if r :| r in records && run == ToRun(s)(r) {
      var i :| 0 <= i < |records| && records[i] == r;
      assert unsorted[i] == run;
    }
    if run in unsorted {
      var i :| 0 <= i < |unsorted| && unsorted[i] == run;
      assert records[i] in records;
    }
  }

  lemma AcceptedIsVerified(s: Setup, records: seq<WorkerRecord>, r: WorkerRecord)
    requires Accepted(s, records) && r in records
    ensures Verified(s, r.Key(), r) && r.evidenceDigest in s.cases && r.methodId in Apply(s.methods, MethodId)
  {
    var c, run := ClaimSetOf(s, records), ToRun(s)(r);
    RecordsAreRuns(s, records, run);
    assert Identified(c, run) && Bound(s, r);
    FoundDigest(s, r);
    DigestsNameIds(s, FindDigest(s.methods, run.methodDigest).value, FindMethod(s.methods, r.methodId).value);
  }

  lemma AcceptedCovers(s: Setup, records: seq<WorkerRecord>, m: ClaimMethod, e: string) returns (r: WorkerRecord)
    requires Accepted(s, records) && m in s.methods && e in s.cases
    ensures r in records && r.Key() == RunKey(m.methodId, e)
  {
    var c := ClaimSetOf(s, records);
    var n :| 0 <= n < |s.methods| && s.methods[n] == m;
    assert Apply(s.methods, MethodDigest)[n] == m.digest;
    assert e in Elements(EvidenceList(c.runs, m.digest));
    EvidenceMembers(c.runs, m.digest, e);
    var run :| run in c.runs && KeyOfRun(run) == (m.digest, e);
    RecordsAreRuns(s, records, run);
    r :| r in records && run == ToRun(s)(r);
    AcceptedIsVerified(s, records, r);
    DigestsNameIds(s, FindMethod(s.methods, r.methodId).value, m);
  }

  lemma AcceptedKeyIsListed(s: Setup, records: seq<WorkerRecord>, k: RunKey)
    requires Accepted(s, records) && k in Apply(records, RecordKey)
    ensures k in Product(Apply(s.methods, MethodId), s.cases)
  {
    var i :| 0 <= i < |records| && Apply(records, RecordKey)[i] == k;
    assert records[i] in records;
    AcceptedIsVerified(s, records, records[i]);
  }

  lemma ListedKeyIsAccepted(s: Setup, records: seq<WorkerRecord>, k: RunKey)
    requires Accepted(s, records) && k in Product(Apply(s.methods, MethodId), s.cases)
    ensures k in Apply(records, RecordKey)
  {
    var n :| 0 <= n < |s.methods| && Apply(s.methods, MethodId)[n] == k.methodId;
    var r := AcceptedCovers(s, records, s.methods[n], k.evidenceDigest);
    KeyOfMember(records, r);
  }

  lemma KeyOfMember(records: seq<WorkerRecord>, r: WorkerRecord)
    requires r in records
    ensures r.Key() in Apply(records, RecordKey)
  {
    var i :| 0 <= i < |records| && records[i] == r;
    assert Apply(records, RecordKey)[i] == r.Key();
  }

  lemma AcceptedRequests(s: Setup, records: seq<WorkerRecord>, a: string, b: string)
    requires Accepted(s, records) && a in s.cases && b in s.cases && s.request(a) == s.request(b)
    ensures a == b
  {
    var c := ClaimSetOf(s, records);
    var x := AcceptedCovers(s, records, s.methods[0], a);
    var y := AcceptedCovers(s, records, s.methods[0], b);
    RecordsAreRuns(s, records, ToRun(s)(x));
    RecordsAreRuns(s, records, ToRun(s)(y));
    assert SameEvidenceIffSameRequest(ToRun(s)(x), ToRun(s)(y));
  }

  lemma AcceptedIsComplete(s: Setup, records: seq<WorkerRecord>)
    requires Accepted(s, records)
    ensures Complete(s, records)
  {
    var keys := Apply(records, RecordKey);
    forall r | r in records ensures Verified(s, r.Key(), r) {
      AcceptedIsVerified(s, records, r);
    }
    forall k ensures k in Elements(keys) <==> k in Product(Apply(s.methods, MethodId), s.cases) {
      if k in keys {
        AcceptedKeyIsListed(s, records, k);
      }
      if k in Product(Apply(s.methods, MethodId), s.cases) {
        ListedKeyIsAccepted(s, records, k);
      }
    }
    DistinctCardinality(s.cases);
    forall a, b | a in s.cases && b in s.cases && s.request(a) == s.request(b) ensures a == b {
      AcceptedRequests(s, records, a, b);
    }
  }

  /** Assembly, with all its counts, sets and orders, accepts exactly one
      verified record for every method and case, in any order. */
  lemma AcceptedIffComplete(s: Setup, records: seq<WorkerRecord>)
    ensures Accepted(s, records) <==> Complete(s, records)
  {
    if Complete(s, records) {
      CompleteIsEvaluated(s, records);
      EvaluatedIsAccepted(s, AnswersOf(records), Apply(records, RecordKey));
    }
    if Accepted(s, records) {
      AcceptedIsComplete(s, records);
    }
  }

  // ---------- evaluation ----------

  /** `evaluate_workspace100_baselines`: an invalid setup, order or pool runs
      nothing; a valid one runs the keys in that order, each once, until a backend
      changes its identity or returns a record of something else. What is then
      assembled is refused only if two cases share a request. */
  method Evaluate(s: Setup, backends: Backends, order: seq<RunKey>) returns (r: Result<ClaimSet, ClaimError>)
    modifies backends
    ensures r.Ok? <==>
      && Releasable(s) && s.cases != []
      && ValidOrder(s, order) && AllPinned(s, backends.pool, old(backends.calls))
      && AllKeepFaith(s, backends.pool, old(backends.calls), order)(|order|)
    ensures r.Ok? ==> backends.calls == old(backends.calls) + order
    ensures r.Ok? ==> r.value == Evaluated(s, AnswersGiven(backends.pool, old(backends.calls), order), order)
    ensures r.Err? ==> old(backends.calls) <= backends.calls <= old(backends.calls) + order
    ensures !s.Valid() || !ValidOrder(s, order) || !AllPinned(s, backends.pool, old(backends.calls)) ==>
      backends.calls == old(backends.calls)
  {
    SetupIsValid(s);
    if !SetupCheck(s) || s.cases == [] {
      return Err(InvalidSetup);
    }
    if !ValidOrder(s, order) {
      return Err(NotTheProduct);
    }
    if !AllPinned(s, backends.pool, backends.calls) {
      return Err(OtherBackend);
    }
    DistinctCardinality(order);
    ghost var answers := AnswersGiven(backends.pool, backends.calls, order);
    var records := RunOrdered(s, backends, order);
    if records.Err? {
      return Err(records.error);
    }
    EvaluationIsAccepted(s, answers, order);
    r := BuildClaimSet(s, records.value);
  }

  lemma EvaluationIsAccepted(s: Setup, answer: RunKey -> RunOutcome, order: seq<RunKey>)
    requires ValidOrder(s, order)
    ensures Accepted(s, Apply(order, RecordFor(s, answer))) <==> Releasable(s) && s.cases != []
  {
    if Releasable(s) && s.cases != [] {
      EvaluatedIsAccepted(s, answer, order);
    }
    if Accepted(s, Apply(order, RecordFor(s, answer))) {
      AcceptedIsComplete(s, Apply(order, RecordFor(s, answer)));
    }
  }

  /** Acceptance and the claim set do not depend on the order of the records. */
  lemma AcceptanceIgnoresOrder(s: Setup, a: seq<WorkerRecord>, b: seq<WorkerRecord>)
    requires multiset(a) == multiset(b)
    ensures Accepted(s, a) <==> Accepted(s, b)
    ensures Accepted(s, a) ==> ClaimSetOf(s, a) == ClaimSetOf(s, b)
  {
    if Accepted(s, a) {
      AcceptedInOrder(s, a, b);
    }
    if Accepted(s, b) {
      AcceptedInOrder(s, b, a);
    }
  }

  lemma AcceptedInOrder(s: Setup, a: seq<WorkerRecord>, b: seq<WorkerRecord>)
    requires multiset(a) == multiset(b) && Accepted(s, a)
    ensures Accepted(s, b) && ClaimSetOf(s, a) == ClaimSetOf(s, b)
  {
    AssemblyIgnoresOrder(s, a, b);
    assert |a| == |multiset(a)| == |b|;
  }
}
