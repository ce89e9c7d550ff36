/** Assembling the methods-by-cases claim matrix in canonical order, whatever
    the order of execution (src/witnessgap/workspace100/claims.py:383-585, 676-710). */
module Claims {
  import opened Model
  import opened Order
  import opened Permutations
  import opened WorkerRun
  import opened Projection

  datatype RunKey = RunKey(methodId: string, evidenceDigest: string)

  /** `WorkerRunRecord`, with its identities as opaque strings. */
  datatype WorkerRecord = WorkerRecord(
    methodId: string, program: string, backend: string, limits: string,
    evidenceDigest: string, requestDigest: string, outcome: RunOutcome)
  {
    function Key(): RunKey {
      RunKey(methodId, evidenceDigest)
    }
  }

  datatype ClaimMethod = ClaimMethod(methodId: string, program: string, digest: string)

  datatype ClaimRun = ClaimRun(methodDigest: string, record: WorkerRecord)

  datatype ClaimSet = ClaimSet(backend: string, limits: string, methods: seq<ClaimMethod>, runs: seq<ClaimRun>)

  /** The baseline set, the public cases and the pinned execution identity. */
  datatype Setup = Setup(
    methods: seq<ClaimMethod>, cases: seq<string>, request: string -> string, backend: string, limits: string)
  {
    ghost predicate Valid() {
      Distinct(Apply(methods, MethodId)) && Distinct(Apply(methods, MethodDigest)) && Distinct(cases)
    }
  }

  datatype ClaimError =
    | InvalidSetup
    | WrongCount
    | DuplicateKeys
    | NotTheProduct
    | OtherBackend
    | BackendRaised
    | BackendChanged
    | RecordContradicts
    | RecordUnbound
    | InvalidRuns
    | NotThePublicCases

  function MethodId(m: ClaimMethod): string {
    m.methodId
  }

  function MethodDigest(m: ClaimMethod): string {
    m.digest
  }

  function FindMethod(methods: seq<ClaimMethod>, id: string): (m: Option<ClaimMethod>)
    ensures m.Some? ==> m.value in methods && m.value.methodId == id
    ensures m.None? ==> id !in Apply(methods, MethodId)
  {
    if methods == [] then None
    else if methods[0].methodId == id then Some(methods[0])
    else
      assert Apply(methods, MethodId) == [methods[0].methodId] + Apply(methods[1..], MethodId);
      FindMethod(methods[1..], id)
  }

  /** `rank for rank, method in enumerate(methods)`, by digest. */
  function Rank(methods: seq<ClaimMethod>, digest: string): nat {
    if methods == [] || methods[0].digest == digest then 0 else 1 + Rank(methods[1..], digest)
  }

  function RunSortKey(methods: seq<ClaimMethod>): ClaimRun -> Key {
    (r: ClaimRun) => Key(Rank(methods, r.methodDigest), [], 0, r.record.evidenceDigest)
  }

  function RunOrder(methods: seq<ClaimMethod>): (ClaimRun, ClaimRun) -> bool {
    ByKey(RunSortKey(methods))
  }

  // ---------- the execution order ----------

  function Product(ids: seq<string>, cases: seq<string>): set<RunKey> {
    set id, e | id in ids && e in cases :: RunKey(id, e)
  }

  /** `_validate_execution_order`, for any number of methods and cases. */
  predicate ValidOrder(s: Setup, order: seq<RunKey>) {
    && |Elements(order)| == |order|
    && |Elements(s.cases)| == |s.cases|
    && Elements(order) == Product(Apply(s.methods, MethodId), s.cases)
  }

  /** Every key of the product is executed exactly once. */
  lemma OrderCoversProduct(s: Setup, order: seq<RunKey>)
    requires ValidOrder(s, order)
    ensures forall k :: multiset(order)[k] == (if k in Product(Apply(s.methods, MethodId), s.cases) then 1 else 0)
  {
    DistinctCardinality(order);
    DistinctIffMultiset(order);
    forall k ensures multiset(order)[k] == (if k in Product(Apply(s.methods, MethodId), s.cases) then 1 else 0) {
      assert k in order <==> k in Elements(order);
    }
  }

  /** Any two valid orders are permutations of each other. */
  lemma OrdersPermute(s: Setup, a: seq<RunKey>, b: seq<RunKey>)
    requires ValidOrder(s, a) && ValidOrder(s, b)
    ensures multiset(a) == multiset(b)
  {
    OrderCoversProduct(s, a);
    OrderCoversProduct(s, b);
    assert forall k :: multiset(a)[k] == multiset(b)[k];
  }

  // ---------- building ----------

  function RecordKey(r: WorkerRecord): RunKey {
    r.Key()
  }

  /** The record joins a known method under the pinned identities. */
  predicate Bound(s: Setup, r: WorkerRecord) {
    r.limits == s.limits && r.backend == s.backend && r.methodId in Apply(s.methods, MethodId)
  }

  predicate Buildable(s: Setup, records: seq<WorkerRecord>) {
    && |Elements(Apply(records, RecordKey))| == |records|
    && forall r :: r in records ==> Bound(s, r)
  }

  function ToRun(s: Setup): WorkerRecord -> ClaimRun {
    (r: WorkerRecord) =>
      ClaimRun(match FindMethod(s.methods, r.methodId) case Some(m) => m.digest case None => "", r)
  }

  /** The claim set of a list of records, in canonical order. */
  function ClaimSetOf(s: Setup, records: seq<WorkerRecord>): ClaimSet {
    ClaimSet(s.backend, s.limits, s.methods, Sort(RunOrder(s.methods), Apply(records, ToRun(s))))
  }

  ghost predicate AllBound(s: Setup, records: seq<WorkerRecord>) {
    forall i :: 0 <= i < |records| ==> Bound(s, records[i])
  }

  /** The loop of `build_workspace100_claim_set`. */
  method BindRuns(s: Setup, records: seq<WorkerRecord>) returns (r: Result<seq<ClaimRun>, ClaimError>)
    ensures r.Ok? <==> AllBound(s, records)
    ensures r.Ok? ==> r.value == Apply(records, ToRun(s))
  {
    var runs: seq<ClaimRun> := [];
    ghost var expected := Apply(records, ToRun(s));
    var i := 0;
    while i < |records| && Bound(s, records[i])
      invariant 0 <= i <= |records|
      invariant runs == expected[..i]
      invariant forall k :: 0 <= k < i ==> Bound(s, records[k])
    {
      var run := ToRun(s)(records[i]);
      PrefixGrows(runs, expected, i, run);
      runs := runs + [run];
      i := i + 1;
    }
    if i < |records| {
      return Err(RecordUnbound);
    }
    r := Ok(runs);
  }

  lemma RanksSeparate(methods: seq<ClaimMethod>, a: string, b: string)
    requires a in Apply(methods, MethodDigest) && b in Apply(methods, MethodDigest)
    requires Rank(methods, a) == Rank(methods, b)
    ensures a == b
  {
    if methods[0].digest != a {
      assert Apply(methods, MethodDigest) == [methods[0].digest] + Apply(methods[1..], MethodDigest);
      RanksSeparate(methods[1..], a, b);
    }
  }

  lemma FoundDigest(s: Setup, r: WorkerRecord)
    requires Bound(s, r)
    ensures ToRun(s)(r).methodDigest in Apply(s.methods, MethodDigest)
    ensures exists m :: m in s.methods && m.methodId == r.methodId && m.digest == ToRun(s)(r).methodDigest
  {
    var m := FindMethod(s.methods, r.methodId).value;
    var i :| 0 <= i < |s.methods| && s.methods[i] == m;
    assert Apply(s.methods, MethodDigest)[i] == m.digest;
  }

  lemma DigestsNameIds(s: Setup, a: ClaimMethod, b: ClaimMethod)
    requires s.Valid() && a in s.methods && b in s.methods && a.digest == b.digest
    ensures a == b
  {
    var i :| 0 <= i < |s.methods| && s.methods[i] == a;
    var j :| 0 <= j < |s.methods| && s.methods[j] == b;
    assert Apply(s.methods, MethodDigest)[i] == Apply(s.methods, MethodDigest)[j];
  }

  /** Records with different keys are told apart by the result order. */
  lemma RunsSeparate(s: Setup, records: seq<WorkerRecord>)
    requires s.Valid() && Buildable(s, records)
    ensures Separates(RunOrder(s.methods), Apply(records, ToRun(s)))
  {
    var runs := Apply(records, ToRun(s));
    var le := RunOrder(s.methods);
    forall i, j | 0 <= i < |runs| && 0 <= j < |runs| && le(runs[i], runs[j]) && le(runs[j], runs[i])
      ensures runs[i] == runs[j]
    {
      SameKeySameRun(s, records, i, j);
    }
  }

  lemma SameKeySameRun(s: Setup, records: seq<WorkerRecord>, i: nat, j: nat)
    requires s.Valid() && Buildable(s, records) && i < |records| && j < |records|
    requires var runs := Apply(records, ToRun(s));
      RunOrder(s.methods)(runs[i], runs[j]) && RunOrder(s.methods)(runs[j], runs[i])
    ensures records[i] == records[j]
  {
    var a, b := ToRun(s)(records[i]), ToRun(s)(records[j]);
    assert records[i] in records && records[j] in records;
    StringsAreOrdered();
    assert Rank(s.methods, a.methodDigest) == Rank(s.methods, b.methodDigest);
    assert a.record.evidenceDigest == b.record.evidenceDigest;
    FoundDigest(s, records[i]);
    FoundDigest(s, records[j]);
    RanksSeparate(s.methods, a.methodDigest, b.methodDigest);
    var m :| m in s.methods && m.methodId == records[i].methodId && m.digest == a.methodDigest;
    var n :| n in s.methods && n.methodId == records[j].methodId && n.digest == b.methodDigest;
    DigestsNameIds(s, m, n);
    KeysAreUnique(records, i, j);
  }

  lemma KeysAreUnique(records: seq<WorkerRecord>, i: nat, j: nat)
    requires |Elements(Apply(records, RecordKey))| == |records| && i < |records| && j < |records|
    requires records[i].Key() == records[j].Key()
    ensures i == j
  {
    DistinctCardinality(Apply(records, RecordKey));
    assert Apply(records, RecordKey)[i] == Apply(records, RecordKey)[j];
  }

  lemma BuildableIsSymmetric(s: Setup, a: seq<WorkerRecord>, b: seq<WorkerRecord>)
    requires multiset(a) == multiset(b) && Buildable(s, a)
    ensures Buildable(s, b)
  {
    SameMultiset(a, b);
    ApplyPermutation(a, b, RecordKey);
    SameMultiset(Apply(a, RecordKey), Apply(b, RecordKey));
    assert forall r :: r in b ==> r in Elements(a);
  }

  /** Assembly does not depend on the order of the records. */
  lemma AssemblyIgnoresOrder(s: Setup, a: seq<WorkerRecord>, b: seq<WorkerRecord>)
    requires s.Valid() && multiset(a) == multiset(b) && Buildable(s, a)
    ensures Buildable(s, b) && ClaimSetOf(s, a) == ClaimSetOf(s, b)
  {
    BuildableIsSymmetric(s, a, b);
    ApplyPermutation(a, b, ToRun(s));
    ByKeyIsOrdered(RunSortKey(s.methods));
    RunsSeparate(s, a);
    SortOfPermutation(RunOrder(s.methods), Apply(a, ToRun(s)), Apply(b, ToRun(s)));
  }

  // ---------- evaluation under a schedule ----------

  datatype BackendIdentity = BackendIdentity(program: string, backend: string)

  /** The backends of all methods. What they call themselves and what they
      return may depend on everything that was run before; `None` means that a
      run raised. */
  datatype Pool = Pool(
    identify: (string, seq<RunKey>) -> BackendIdentity,
    answer: (seq<RunKey>, RunKey) -> Option<WorkerRecord>)

  /** The backends in use. */
  class Backends {
    const pool: Pool
    var calls: seq<RunKey>

    constructor (pool: Pool)
      ensures this.pool == pool && calls == []
    {
      this.pool := pool;
      calls := [];
    }

    method Run(key: RunKey) returns (record: Option<WorkerRecord>)
      modifies this
      ensures calls == old(calls) + [key] && record == pool.answer(old(calls), key)
    {
      record := pool.answer(calls, key);
      calls := calls + [key];
    }
  }

  /** The record that a run of `key` must produce. */
  function RecordFor(s: Setup, answer: RunKey -> RunOutcome): RunKey -> WorkerRecord {
    (k: RunKey) =>
      WorkerRecord(
        k.methodId,
        match FindMethod(s.methods, k.methodId) case Some(m) => m.program case None => "",
        s.backend, s.limits, k.evidenceDigest, s.request(k.evidenceDigest), answer(k))
  }

  /** What evaluation yields under one order. */
  function Evaluated(s: Setup, answer: RunKey -> RunOutcome, order: seq<RunKey>): ClaimSet {
    ClaimSetOf(s, Apply(order, RecordFor(s, answer)))
  }

  lemma OrderIsBuildable(s: Setup, answer: RunKey -> RunOutcome, order: seq<RunKey>)
    requires ValidOrder(s, order)
    ensures Buildable(s, Apply(order, RecordFor(s, answer)))
  {
    var records := Apply(order, RecordFor(s, answer));
    assert Apply(records, RecordKey) == order;
    forall r | r in records ensures Bound(s, r) {
      var i :| 0 <= i < |records| && records[i] == r;
      assert order[i] in Elements(order);
    }
  }

  /** The identity that the backend of a method is pinned to. */
  function Pinned(s: Setup, id: string): BackendIdentity {
    BackendIdentity(match FindMethod(s.methods, id) case Some(m) => m.program case None => "", s.backend)
  }

  predicate AllPinned(s: Setup, pool: Pool, calls: seq<RunKey>) {
    forall m :: m in s.methods ==> pool.identify(m.methodId, calls) == Pinned(s, m.methodId)
  }

  /** `_verify_evaluated_record` */
  predicate Verified(s: Setup, key: RunKey, record: WorkerRecord) {
    && record.methodId == key.methodId && record.program == Pinned(s, key.methodId).program
    && record.backend == s.backend && record.limits == s.limits
    && record.evidenceDigest == key.evidenceDigest && record.requestDigest == s.request(key.evidenceDigest)
  }

  /** The backend of a key keeps its identity and returns a record of that key. */
  predicate KeepsFaith(s: Setup, pool: Pool, calls: seq<RunKey>, key: RunKey) {
    && pool.identify(key.methodId, calls) == Pinned(s, key.methodId)
    && pool.identify(key.methodId, calls + [key]) == Pinned(s, key.methodId)
    && pool.answer(calls, key).Some? && Verified(s, key, pool.answer(calls, key).value)
  }

  /** No backend breaks faith in the first `n` keys of an order. */
  ghost function AllKeepFaith(s: Setup, pool: Pool, before: seq<RunKey>, order: seq<RunKey>): nat -> bool {
    (n: nat) => forall i :: 0 <= i < n && i < |order| ==> KeepsFaith(s, pool, before + order[..i], order[i])
  }

  lemma FaithGrows(s: Setup, pool: Pool, before: seq<RunKey>, order: seq<RunKey>, i: nat)
    requires i < |order| && AllKeepFaith(s, pool, before, order)(i)
    ensures AllKeepFaith(s, pool, before, order)(i + 1) <==> KeepsFaith(s, pool, before + order[..i], order[i])
    ensures !KeepsFaith(s, pool, before + order[..i], order[i]) ==> !AllKeepFaith(s, pool, before, order)(|order|)
  {
  }

  /** Where a key stands in an order, or its length. */
  function Position(order: seq<RunKey>, key: RunKey): (i: nat)
    ensures i <= |order|
    ensures i < |order| ==> order[i] == key
  {
    if order == [] || order[0] == key then 0 else 1 + Position(order[1..], key)
  }

  lemma {:induction false} PositionIsUnique(order: seq<RunKey>, i: nat)
    requires Distinct(order) && i < |order|
    ensures Position(order, order[i]) == i
  {
    if i > 0 {
      PositionIsUnique(order[1..], i - 1);
      assert order[0] != order[i];
    }
  }

  /** What each key was answered when the order ran. */
  function AnswersGiven(pool: Pool, before: seq<RunKey>, order: seq<RunKey>): RunKey -> RunOutcome {
    (k: RunKey) =>
      match pool.answer(before + order[..Position(order, k)], k)
      case Some(record) => record.outcome
      case None => Failed(EmptyOutput)
  }

  lemma RecordAt(s: Setup, pool: Pool, before: seq<RunKey>, order: seq<RunKey>, i: nat)
    requires Distinct(order) && i < |order| && KeepsFaith(s, pool, before + order[..i], order[i])
    ensures pool.answer(before + order[..i], order[i])
      == Some(RecordFor(s, AnswersGiven(pool, before, order))(order[i]))
  {
    PositionIsUnique(order, i);
  }

  /** One key of an evaluation, between two checks of the backend's identity. */
  method RunPinned(s: Setup, backends: Backends, key: RunKey) returns (r: Result<WorkerRecord, ClaimError>)
    modifies backends
    ensures r.Ok? <==> KeepsFaith(s, backends.pool, old(backends.calls), key)
    ensures r.Ok? ==> Some(r.value) == backends.pool.answer(old(backends.calls), key)
    ensures backends.calls == old(backends.calls) + [key] || (r.Err? && backends.calls == old(backends.calls))
  {
    if backends.pool.identify(key.methodId, backends.calls) != Pinned(s, key.methodId) {
      return Err(BackendChanged);
    }
    var record := backends.Run(key);
    if record.None? {
      return Err(BackendRaised);
    }
    if backends.pool.identify(key.methodId, backends.calls) != Pinned(s, key.methodId) {
      return Err(BackendChanged);
    }
    if !Verified(s, key, record.value) {
      return Err(RecordContradicts);
    }
    r := Ok(record.value);
  }

  lemma StepsBetween(before: seq<RunKey>, order: seq<RunKey>, i: nat, calls: seq<RunKey>)
    requires i < |order| && (calls == before + order[..i] || calls == before + order[..i + 1])
    ensures before <= calls <= before + order
  {
    assert before + order == before + order[..i] + order[i..] == before + order[..i + 1] + order[i + 1..];
  }

  lemma OneMoreCall(before: seq<RunKey>, order: seq<RunKey>, i: nat)
    requires i < |order|
    ensures before + order[..i] + [order[i]] == before + order[..i + 1]
  {
  }

  /** The run loop of `evaluate_workspace100_baselines`. */
  method RunOrdered(s: Setup, backends: Backends, order: seq<RunKey>) returns (r: Result<seq<WorkerRecord>, ClaimError>)
    requires Distinct(order)
    modifies backends
    ensures r.Ok? <==> AllKeepFaith(s, backends.pool, old(backends.calls), order)(|order|)
    ensures r.Ok? ==> backends.calls == old(backends.calls) + order
    ensures r.Ok? ==> r.value == Apply(order, RecordFor(s, AnswersGiven(backends.pool, old(backends.calls), order)))
    ensures r.Err? ==> old(backends.calls) <= backends.calls <= old(backends.calls) + order
  {
    ghost var before := backends.calls;
    ghost var faith := AllKeepFaith(s, backends.pool, before, order);
    ghost var expected := Apply(order, RecordFor(s, AnswersGiven(backends.pool, before, order)));
    var records: seq<WorkerRecord> := [];
    for i := 0 to |order|
      invariant records == expected[..i] && backends.calls == before + order[..i] && faith(i)
    {
      FaithGrows(s, backends.pool, before, order, i);
      var record := RunPinned(s, backends, order[i]);
      OneMoreCall(before, order, i);
      if record.Err? {
        StepsBetween(before, order, i, backends.calls);
        return Err(record.error);
      }
      RecordAt(s, backends.pool, before, order, i);
      PrefixGrows(records, expected, i, record.value);
      records := records + [record.value];
    }
    r := Ok(records);
  }

  /** Any two valid schedules give the identical claim set. */
  lemma ScheduleIsIrrelevant(s: Setup, answer: RunKey -> RunOutcome, a: seq<RunKey>, b: seq<RunKey>)
    requires s.Valid() && ValidOrder(s, a) && ValidOrder(s, b)
    ensures Evaluated(s, answer, a) == Evaluated(s, answer, b)
  {
    OrdersPermute(s, a, b);
    ApplyPermutation(a, b, RecordFor(s, answer));
    OrderIsBuildable(s, answer, a);
    AssemblyIgnoresOrder(s, Apply(a, RecordFor(s, answer)), Apply(b, RecordFor(s, answer)));
  }
}
