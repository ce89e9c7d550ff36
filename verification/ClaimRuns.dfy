/** The claim-set validators, and the only run lists that pass them
    (src/witnessgap/workspace100/claims.py:858-947). */
module ClaimRuns {
  import opened Model
  import opened Order
  import opened Permutations
  import opened WorkerRun
  import opened Projection
  import opened Claims

  type GridKey = (string, string)

  function KeyOfRun(r: ClaimRun): GridKey {
    (r.methodDigest, r.record.evidenceDigest)
  }

  function OfMethod(digest: string): ClaimRun -> bool {
    (r: ClaimRun) => r.methodDigest == digest
  }

  function EvidenceOf(r: ClaimRun): string {
    r.record.evidenceDigest
  }

  /** `evidence_by_method[digest]` */
  function EvidenceList(runs: seq<ClaimRun>, digest: string): seq<string> {
    Apply(Filter(runs, OfMethod(digest)), EvidenceOf)
  }

  /** `request_by_evidence[evidence]` */
  function Requests(runs: seq<ClaimRun>, evidence: string): set<string> {
    set r | r in runs && r.record.evidenceDigest == evidence :: r.record.requestDigest
  }

  function AllEvidence(runs: seq<ClaimRun>): set<string> {
    set r | r in runs :: r.record.evidenceDigest
  }

  function FindDigest(methods: seq<ClaimMethod>, digest: string): (m: Option<ClaimMethod>)
    ensures m.Some? ==> m.value in methods && m.value.digest == digest
    ensures m.None? ==> digest !in Apply(methods, MethodDigest)
  {
    if methods == [] then None
    else if methods[0].digest == digest then Some(methods[0])
    else
      assert Apply(methods, MethodDigest) == [methods[0].digest] + Apply(methods[1..], MethodDigest);
      FindDigest(methods[1..], digest)
  }

  /** The run carries its method's identity and the set-wide ones. */
  predicate Identified(c: ClaimSet, r: ClaimRun) {
    var m := FindDigest(c.methods, r.methodDigest);
    && m.Some? && r.record.methodId == m.value.methodId && r.record.program == m.value.program
    && r.record.backend == c.backend && r.record.limits == c.limits
  }

  /** Every method covers one evidence set of `cases` digests. */
  ghost predicate SameEvidence(c: ClaimSet, cases: nat) {
    && c.methods != []
    && forall d :: d in Apply(c.methods, MethodDigest) ==>
         && |EvidenceList(c.runs, d)| == cases
         && |Elements(EvidenceList(c.runs, d))| == cases
         && Elements(EvidenceList(c.runs, d)) == Elements(EvidenceList(c.runs, c.methods[0].digest))
  }

  ghost predicate SameEvidenceIffSameRequest(a: ClaimRun, b: ClaimRun) {
    EvidenceOf(a) == EvidenceOf(b) <==> a.record.requestDigest == b.record.requestDigest
  }

  /** Each evidence record has one request, and no two share one. */
  ghost predicate UniqueRequests(c: ClaimSet, cases: nat) {
    && |AllEvidence(c.runs)| == cases
    && forall a, b :: a in c.runs && b in c.runs ==> SameEvidenceIffSameRequest(a, b)
  }

  /** `_validate_claim_run_context` */
  ghost predicate ContextHolds(c: ClaimSet, cases: nat) {
    && (forall r :: r in c.runs ==> Identified(c, r))
    && SameEvidence(c, cases)
    && UniqueRequests(c, cases)
  }

  /** `_validate_claim_set_runs`, for any number of methods and cases. */
  ghost predicate ValidRuns(c: ClaimSet, cases: nat) {
    && Distinct(Apply(c.methods, MethodDigest))
    && |Elements(Apply(c.runs, KeyOfRun))| == |c.runs|
    && (forall r :: r in c.runs ==> r.methodDigest in Apply(c.methods, MethodDigest))
    && c.runs == Sort(RunOrder(c.methods), c.runs)
    && ContextHolds(c, cases)
  }

  // ---------- the grid ----------

  function GridRow(digest: string, evidence: seq<string>): seq<GridKey> {
    Apply(evidence, (e: string) => (digest, e))
  }

  /** All methods by all evidence, method by method. */
  function Grid(digests: seq<string>, evidence: seq<string>): seq<GridKey> {
    if digests == [] then [] else Grid(digests[..|digests| - 1], evidence) + GridRow(digests[|digests| - 1], evidence)
  }

  function GridSortKey(methods: seq<ClaimMethod>): GridKey -> Key {
    (k: GridKey) => Key(Rank(methods, k.0), [], 0, k.1)
  }

  lemma {:induction false} GridMembers(digests: seq<string>, evidence: seq<string>, k: GridKey)
    ensures k in Grid(digests, evidence) <==> k.0 in digests && k.1 in evidence
  {
    if digests != [] {
      var before, last := digests[..|digests| - 1], digests[|digests| - 1];
      GridMembers(before, evidence, k);
      assert digests == before + [last];
      var row := GridRow(last, evidence);
      if k.0 == last && k.1 in evidence {
        var i :| 0 <= i < |evidence| && evidence[i] == k.1;
        assert row[i] == k;
      }
      if k in row {
        var i :| 0 <= i < |row| && row[i] == k;
        assert evidence[i] == k.1;
      }
    }
  }

  lemma {:induction false} RankIs(methods: seq<ClaimMethod>, i: nat)
    requires Distinct(Apply(methods, MethodDigest)) && i < |methods|
    ensures Rank(methods, methods[i].digest) == i
  {
    var digests := Apply(methods, MethodDigest);
    if i > 0 {
      assert digests[0] != digests[i];
      assert Apply(methods[1..], MethodDigest) == digests[1..];
      RankIs(methods[1..], i - 1);
    }
  }

  lemma RowSorted(methods: seq<ClaimMethod>, digest: string, evidence: seq<string>)
    requires StrictlySorted(StringLe, evidence)
    ensures StrictlySorted(ByKey(GridSortKey(methods)), GridRow(digest, evidence))
  {
    var row := GridRow(digest, evidence);
    forall i, j | 0 <= i < j < |row|
      ensures ByKey(GridSortKey(methods))(row[i], row[j]) && row[i] != row[j]
    {
      assert StringLe(evidence[i], evidence[j]) && evidence[i] != evidence[j];
    }
  }

  /** The grid is in the canonical result order. */
  lemma {:induction false} GridSorted(methods: seq<ClaimMethod>, n: nat, evidence: seq<string>)
    requires Distinct(Apply(methods, MethodDigest)) && n <= |methods| && StrictlySorted(StringLe, evidence)
    ensures StrictlySorted(ByKey(GridSortKey(methods)), Grid(Apply(methods, MethodDigest)[..n], evidence))
  {
    var digests := Apply(methods, MethodDigest);
    if n > 0 {
      var before, last := digests[..n - 1], digests[n - 1];
      assert digests[..n][..n - 1] == before;
      GridSorted(methods, n - 1, evidence);
      RowSorted(methods, last, evidence);
      forall x, y | x in Grid(before, evidence) && y in GridRow(last, evidence)
        ensures ByKey(GridSortKey(methods))(x, y) && x != y
      {
        EarlierRank(methods, n - 1, evidence, x, y);
      }
      ConcatenationSorted(ByKey(GridSortKey(methods)), Grid(before, evidence), GridRow(last, evidence));
    }
  }

  lemma EarlierRank(methods: seq<ClaimMethod>, n: nat, evidence: seq<string>, x: GridKey, y: GridKey)
    requires Distinct(Apply(methods, MethodDigest)) && n < |methods|
    requires x in Grid(Apply(methods, MethodDigest)[..n], evidence)
    requires y in GridRow(Apply(methods, MethodDigest)[n], evidence)
    ensures Rank(methods, x.0) < Rank(methods, y.0)
  {
    var digests := Apply(methods, MethodDigest);
    GridMembers(digests[..n], evidence, x);
    var i :| 0 <= i < n && digests[..n][i] == x.0;
    assert digests[i] == methods[i].digest == x.0;
    RankIs(methods, i);
    RankIs(methods, n);
  }

  // ---------- what the validators leave ----------

  lemma KeysAreSorted(c: ClaimSet)
    requires c.runs == Sort(RunOrder(c.methods), c.runs)
    requires |Elements(Apply(c.runs, KeyOfRun))| == |c.runs|
    ensures StrictlySorted(ByKey(GridSortKey(c.methods)), Apply(c.runs, KeyOfRun))
  {
    ByKeyIsOrdered(RunSortKey(c.methods));
    SortSorts(RunOrder(c.methods), c.runs);
    DistinctCardinality(Apply(c.runs, KeyOfRun));
    var keys := Apply(c.runs, KeyOfRun);
    forall i, j | 0 <= i < j < |keys| ensures ByKey(GridSortKey(c.methods))(keys[i], keys[j]) {
      assert RunOrder(c.methods)(c.runs[i], c.runs[j]);
    }
  }

  /** The evidence that every method covers. */
  ghost function Covered(c: ClaimSet): seq<string>
    requires c.methods != []
  {
    StringsAreOrdered();
    SortedSet(StringLe, Elements(EvidenceList(c.runs, c.methods[0].digest)))
  }

  lemma EvidenceMembers(runs: seq<ClaimRun>, digest: string, e: string)
    ensures e in EvidenceList(runs, digest) <==> exists r :: r in runs && KeyOfRun(r) == (digest, e)
  {
    var kept := Filter(runs, OfMethod(digest));
    if r :| r in runs && KeyOfRun(r) == (digest, e) {
      assert r in kept;
      var i :| 0 <= i < |kept| && kept[i] == r;
      assert EvidenceList(runs, digest)[i] == e;
    }
    if e in EvidenceList(runs, digest) {
      var i :| 0 <= i < |kept| && EvidenceOf(kept[i]) == e;
      assert kept[i] in kept;
    }
  }

  lemma KeyMembers(runs: seq<ClaimRun>, k: GridKey)
    ensures k in Apply(runs, KeyOfRun) <==> exists r :: r in runs && KeyOfRun(r) == k
  {
    if r :| r in runs && KeyOfRun(r) == k {
      var i :| 0 <= i < |runs| && runs[i] == r;
      assert Apply(runs, KeyOfRun)[i] == k;
    }
  }

  lemma KeysFillGrid(c: ClaimSet, cases: nat, k: GridKey)
    requires ValidRuns(c, cases)
    ensures k in Apply(c.runs, KeyOfRun) <==> k in Grid(Apply(c.methods, MethodDigest), Covered(c))
  {
    var digests := Apply(c.methods, MethodDigest);
    StringsAreOrdered();
    GridMembers(digests, Covered(c), k);
    KeyMembers(c.runs, k);
    EvidenceMembers(c.runs, k.0, k.1);
    assert k.1 in Covered(c) <==> k.1 in Elements(Covered(c));
    if k.0 in digests {
      assert Elements(EvidenceList(c.runs, k.0)) == Elements(EvidenceList(c.runs, c.methods[0].digest));
      assert k.1 in EvidenceList(c.runs, k.0) <==> k.1 in Elements(EvidenceList(c.runs, k.0));
    }
  }

  /** Accepted runs are exactly methods by one evidence set, listed by method
      rank and then by digest. */
  lemma RunsAreTheGrid(c: ClaimSet, cases: nat)
    requires ValidRuns(c, cases)
    ensures StrictlySorted(StringLe, Covered(c)) && |Covered(c)| == cases
    ensures Apply(c.runs, KeyOfRun) == Grid(Apply(c.methods, MethodDigest), Covered(c))
  {
    var digests := Apply(c.methods, MethodDigest);
    var keys, grid := Apply(c.runs, KeyOfRun), Grid(digests, Covered(c));
    var le := ByKey(GridSortKey(c.methods));
    StringsAreOrdered();
    DistinctCardinality(Covered(c));
    assert digests[0] == c.methods[0].digest;
    KeysAreSorted(c);
    GridSorted(c.methods, |c.methods|, Covered(c));
    assert digests[..|c.methods|] == digests;
    forall k ensures k in Elements(keys) <==> k in Elements(grid) {
      KeysFillGrid(c, cases, k);
    }
    forall x, y | x in keys && y in keys && le(x, y) && le(y, x) ensures x == y {
      KeyMembers(c.runs, x);
      KeyMembers(c.runs, y);
      RanksSeparate(c.methods, x.0, y.0);
    }
    StrictlySortedUnique(le, keys, grid);
  }

  /** The request of some run on this evidence. */
  ghost function RequestFor(runs: seq<ClaimRun>, evidence: string): (request: string)
    requires evidence in AllEvidence(runs)
    ensures exists r :: r in runs && EvidenceOf(r) == evidence && r.record.requestDigest == request
  {
    var r :| r in runs && r.record.evidenceDigest == evidence;
    r.record.requestDigest
  }

  lemma RunIsCovered(c: ClaimSet, cases: nat, r: ClaimRun)
    requires ValidRuns(c, cases) && r in c.runs
    ensures EvidenceOf(r) in Covered(c)
  {
    KeyMembers(c.runs, KeyOfRun(r));
    KeysFillGrid(c, cases, KeyOfRun(r));
    GridMembers(Apply(c.methods, MethodDigest), Covered(c), KeyOfRun(r));
  }

  lemma CoveredHasRun(c: ClaimSet, e: string)
    requires c.methods != [] && e in Covered(c)
    ensures e in AllEvidence(c.runs)
  {
    StringsAreOrdered();
    assert e in Elements(Covered(c));
    EvidenceMembers(c.runs, c.methods[0].digest, e);
    var r :| r in c.runs && KeyOfRun(r) == (c.methods[0].digest, e);
  }

  lemma CoveredEvidence(c: ClaimSet, cases: nat)
    requires ValidRuns(c, cases)
    ensures AllEvidence(c.runs) == Elements(Covered(c))
  {
    forall r | r in c.runs ensures EvidenceOf(r) in Covered(c) {
      RunIsCovered(c, cases, r);
    }
    forall e | e in Covered(c) ensures e in AllEvidence(c.runs) {
      CoveredHasRun(c, e);
    }
  }

  /** Runs on one evidence record carry one request, and others another. */
  ghost predicate RequestsAgree(runs: seq<ClaimRun>) {
    forall a, b :: a in runs && b in runs ==> SameEvidenceIffSameRequest(a, b)
  }

  lemma RequestOfRun(runs: seq<ClaimRun>, r: ClaimRun)
    requires RequestsAgree(runs) && r in runs
    ensures EvidenceOf(r) in AllEvidence(runs) && RequestFor(runs, EvidenceOf(r)) == r.record.requestDigest
  {
    assert EvidenceOf(r) in AllEvidence(runs);
    var r' :|
      r' in runs && EvidenceOf(r') == EvidenceOf(r) && r'.record.requestDigest == RequestFor(runs, EvidenceOf(r));
    assert SameEvidenceIffSameRequest(r, r');
  }

  lemma RequestsDiffer(runs: seq<ClaimRun>, x: string, y: string)
    requires RequestsAgree(runs) && x in AllEvidence(runs) && y in AllEvidence(runs)
    requires RequestFor(runs, x) == RequestFor(runs, y)
    ensures x == y
  {
    var a :| a in runs && EvidenceOf(a) == x && a.record.requestDigest == RequestFor(runs, x);
    var b :| b in runs && EvidenceOf(b) == y && b.record.requestDigest == RequestFor(runs, y);
    assert SameEvidenceIffSameRequest(a, b);
  }

  ghost predicate Injective(request: map<string, string>) {
    forall x, y :: x in request && y in request && request[x] == request[y] ==> x == y
  }

  ghost predicate Follows(runs: seq<ClaimRun>, request: map<string, string>) {
    forall r :: r in runs ==> EvidenceOf(r) in request && request[EvidenceOf(r)] == r.record.requestDigest
  }

  lemma RunsFollowAMap(runs: seq<ClaimRun>) returns (request: map<string, string>)
    requires RequestsAgree(runs)
    ensures request.Keys == AllEvidence(runs) && Injective(request) && Follows(runs, request)
  {
    request := map e | e in AllEvidence(runs) :: RequestFor(runs, e);
    assert request.Keys == AllEvidence(runs);
    forall r | r in runs ensures EvidenceOf(r) in request && request[EvidenceOf(r)] == r.record.requestDigest {
      RequestOfRun(runs, r);
    }
    forall x, y | x in request && y in request && request[x] == request[y] ensures x == y {
      RequestsDiffer(runs, x, y);
    }
  }

  lemma ValidRunsAgree(c: ClaimSet, cases: nat)
    requires ValidRuns(c, cases)
    ensures RequestsAgree(c.runs) && |AllEvidence(c.runs)| == cases
  {
  }

  /** The runs of an accepted list follow one injective map from the covered
      evidence to requests. */
  lemma RequestsAreAMap(c: ClaimSet, cases: nat) returns (request: map<string, string>)
    requires ValidRuns(c, cases)
    ensures request.Keys == Elements(Covered(c)) && |request.Keys| == cases
    ensures Injective(request) && Follows(c.runs, request)
  {
    CoveredEvidence(c, cases);
    ValidRunsAgree(c, cases);
    request := RunsFollowAMap(c.runs);
  }

  /** Two accepted claim sets over the same methods and evidence, whose records
      agree key by key, list the identical runs. */
  lemma AcceptedRunsAreUnique(a: ClaimSet, b: ClaimSet, cases: nat)
    requires ValidRuns(a, cases) && ValidRuns(b, cases)
    requires a.methods == b.methods && Covered(a) == Covered(b)
    requires forall x, y :: x in a.runs && y in b.runs && KeyOfRun(x) == KeyOfRun(y) ==> x == y
    ensures a.runs == b.runs
  {
    RunsAreTheGrid(a, cases);
    RunsAreTheGrid(b, cases);
    var left, right := Apply(a.runs, KeyOfRun), Apply(b.runs, KeyOfRun);
    forall i | 0 <= i < |a.runs| ensures a.runs[i] == b.runs[i] {
      assert left[i] == right[i];
      assert a.runs[i] in a.runs && b.runs[i] in b.runs;
    }
  }

  // ---------- evaluation meets the validators ----------

  lemma HeadIsFresh(runs: seq<ClaimRun>, r: ClaimRun)
    requires runs != [] && Distinct(Apply(runs, KeyOfRun)) && r in runs[1..]
    ensures KeyOfRun(r) != KeyOfRun(runs[0])
  {
    var i :| 0 <= i < |runs| - 1 && runs[1..][i] == r;
    assert Apply(runs, KeyOfRun)[0] != Apply(runs, KeyOfRun)[i + 1];
  }

  lemma TailKeysDistinct(runs: seq<ClaimRun>)
    requires runs != [] && Distinct(Apply(runs, KeyOfRun))
    ensures Distinct(Apply(runs[1..], KeyOfRun))
  {
    var keys := Apply(runs, KeyOfRun);
    assert forall i :: 0 <= i < |runs| - 1 ==> Apply(runs[1..], KeyOfRun)[i] == keys[i + 1];
  }

  lemma {:induction false} EvidenceDistinct(runs: seq<ClaimRun>, digest: string)
    requires Distinct(Apply(runs, KeyOfRun))
    ensures Distinct(EvidenceList(runs, digest))
  {
    if runs != [] {
      var head, rest := runs[0], runs[1..];
      TailKeysDistinct(runs);
      EvidenceDistinct(rest, digest);
      if head.methodDigest == digest {
        assert EvidenceList(runs, digest) == [EvidenceOf(head)] + EvidenceList(rest, digest);
        forall r | r in rest ensures KeyOfRun(r) != KeyOfRun(head) {
          HeadIsFresh(runs, r);
        }
        EvidenceMembers(rest, digest, EvidenceOf(head));
        DistinctCons(EvidenceOf(head), EvidenceList(rest, digest));
      }
    }
  }

  lemma DistinctCons<T>(x: T, s: seq<T>)
    requires Distinct(s) && x !in s
    ensures Distinct([x] + s)
  {
  }

  /** What the setup promises beyond `Valid`: some method, and requests that
      tell evidence apart. */
  ghost predicate Releasable(s: Setup) {
    && s.Valid() && s.methods != []
    && forall a, b :: a in s.cases && b in s.cases && s.request(a) == s.request(b) ==> a == b
  }

  /** The run that evaluation adds for one key. */
  ghost predicate IsRunOf(s: Setup, r: ClaimRun, k: RunKey) {
    && r.record.Key() == k && r.record.requestDigest == s.request(k.evidenceDigest)
    && r.record.backend == s.backend && r.record.limits == s.limits
    && var m := FindMethod(s.methods, k.methodId);
       m.Some? && r.methodDigest == m.value.digest && r.record.program == m.value.program
  }

  lemma RunsComeFromKeys(s: Setup, answer: RunKey -> RunOutcome, order: seq<RunKey>, r: ClaimRun)
    requires ValidOrder(s, order) && r in Evaluated(s, answer, order).runs
    ensures r.record.Key() in Product(Apply(s.methods, MethodId), s.cases) && IsRunOf(s, r, r.record.Key())
    ensures r.record.outcome == answer(r.record.Key())
  {
    var records := Apply(order, RecordFor(s, answer));
    var unsorted := Apply(records, ToRun(s));
    SameMultiset(unsorted, Evaluated(s, answer, order).runs);
    assert r in Elements(unsorted);
    var i :| 0 <= i < |unsorted| && unsorted[i] == r;
    assert order[i] in Elements(order);
  }

  lemma KeysHaveRuns(s: Setup, answer: RunKey -> RunOutcome, order: seq<RunKey>, k: RunKey)
    requires ValidOrder(s, order) && k in Product(Apply(s.methods, MethodId), s.cases)
    ensures exists r :: r in Evaluated(s, answer, order).runs && IsRunOf(s, r, k) && r.record.outcome == answer(k)
  {
    var records := Apply(order, RecordFor(s, answer));
    var unsorted := Apply(records, ToRun(s));
    SameMultiset(unsorted, Evaluated(s, answer, order).runs);
    assert k in Elements(order);
    var i :| 0 <= i < |order| && order[i] == k;
    assert unsorted[i] in Elements(Evaluated(s, answer, order).runs);
    assert IsRunOf(s, unsorted[i], k);
  }

  lemma SameMethodSameId(s: Setup, a: ClaimRun, b: ClaimRun, k: RunKey, k': RunKey)
    requires s.Valid() && IsRunOf(s, a, k) && IsRunOf(s, b, k') && KeyOfRun(a) == KeyOfRun(b)
    ensures k == k'
  {
    DigestsNameIds(s, FindMethod(s.methods, k.methodId).value, FindMethod(s.methods, k'.methodId).value);
  }

  lemma EvaluatedKeysDistinct(s: Setup, answer: RunKey -> RunOutcome, order: seq<RunKey>)
    requires s.Valid() && ValidOrder(s, order)
    ensures Distinct(Apply(Evaluated(s, answer, order).runs, KeyOfRun))
  {
    var records := Apply(order, RecordFor(s, answer));
    var unsorted := Apply(records, ToRun(s));
    DistinctCardinality(order);
    forall i, j | 0 <= i < j < |unsorted| ensures KeyOfRun(unsorted[i]) != KeyOfRun(unsorted[j]) {
      assert order[i] in Elements(order) && order[j] in Elements(order);
      assert IsRunOf(s, unsorted[i], order[i]) && IsRunOf(s, unsorted[j], order[j]);
      if KeyOfRun(unsorted[i]) == KeyOfRun(unsorted[j]) {
        SameMethodSameId(s, unsorted[i], unsorted[j], order[i], order[j]);
      }
    }
    ApplyPermutation(unsorted, Evaluated(s, answer, order).runs, KeyOfRun);
    DistinctPermutation(Apply(unsorted, KeyOfRun), Apply(Evaluated(s, answer, order).runs, KeyOfRun));
  }

  /** The evaluated matrix holds one run for every method and case, with the
      answer that the worker gave for that key, and nothing else. */
  lemma MatrixHoldsAnswers(s: Setup, answer: RunKey -> RunOutcome, order: seq<RunKey>)
    requires s.Valid() && ValidOrder(s, order)
    ensures var runs := Evaluated(s, answer, order).runs; var keys := Product(Apply(s.methods, MethodId), s.cases);
      && Distinct(Apply(runs, KeyOfRun))
      && (forall r :: r in runs ==> r.record.Key() in keys && IsRunOf(s, r, r.record.Key()))
      && (forall r :: r in runs ==> r.record.outcome == answer(r.record.Key()))
      && (forall k :: k in keys ==> exists r :: r in runs && IsRunOf(s, r, k) && r.record.outcome == answer(k))
  {
    EvaluatedKeysDistinct(s, answer, order);
    forall r | r in Evaluated(s, answer, order).runs
      ensures r.record.Key() in Product(Apply(s.methods, MethodId), s.cases) && IsRunOf(s, r, r.record.Key())
      ensures r.record.outcome == answer(r.record.Key())
    {
      RunsComeFromKeys(s, answer, order, r);
    }
    forall k | k in Product(Apply(s.methods, MethodId), s.cases)
      ensures exists r :: r in Evaluated(s, answer, order).runs && IsRunOf(s, r, k) && r.record.outcome == answer(k)
    {
      KeysHaveRuns(s, answer, order, k);
    }
  }

  /** Backends may remember what they ran. Two evaluations give the identical
      claim set exactly if every key was answered alike in both. */
  lemma SchedulesAgreeExactly(
      s: Setup, f: RunKey -> RunOutcome, g: RunKey -> RunOutcome, a: seq<RunKey>, b: seq<RunKey>)
    requires s.Valid() && ValidOrder(s, a) && ValidOrder(s, b)
    ensures Evaluated(s, f, a) == Evaluated(s, g, b)
      <==> forall k :: k in Product(Apply(s.methods, MethodId), s.cases) ==> f(k) == g(k)
  {
    var keys := Product(Apply(s.methods, MethodId), s.cases);
    if forall k :: k in keys ==> f(k) == g(k) {
      SameAnswersSameSet(s, f, g, a);
      ScheduleIsIrrelevant(s, g, a, b);
    }
    if Evaluated(s, f, a) == Evaluated(s, g, b) {
      forall k | k in keys ensures f(k) == g(k) {
        SameSetSameAnswer(s, f, g, a, b, k);
      }
    }
  }

  lemma SameAnswersSameSet(s: Setup, f: RunKey -> RunOutcome, g: RunKey -> RunOutcome, order: seq<RunKey>)
    requires ValidOrder(s, order)
    requires forall k :: k in Product(Apply(s.methods, MethodId), s.cases) ==> f(k) == g(k)
    ensures Evaluated(s, f, order) == Evaluated(s, g, order)
  {
    forall i | 0 <= i < |order| ensures RecordFor(s, f)(order[i]) == RecordFor(s, g)(order[i]) {
      assert order[i] in Elements(order);
    }
    assert Apply(order, RecordFor(s, f)) == Apply(order, RecordFor(s, g));
  }

  lemma SameSetSameAnswer(
      s: Setup, f: RunKey -> RunOutcome, g: RunKey -> RunOutcome, a: seq<RunKey>, b: seq<RunKey>, k: RunKey)
    requires s.Valid() && ValidOrder(s, a) && ValidOrder(s, b) && Evaluated(s, f, a) == Evaluated(s, g, b)
    requires k in Product(Apply(s.methods, MethodId), s.cases)
    ensures f(k) == g(k)
  {
    KeysHaveRuns(s, f, a, k);
    var r :| r in Evaluated(s, f, a).runs && IsRunOf(s, r, k) && r.record.outcome == f(k);
    RunsComeFromKeys(s, g, b, r);
  }

  lemma MethodOfDigest(s: Setup, digest: string) returns (m: ClaimMethod)
    requires s.Valid() && digest in Apply(s.methods, MethodDigest)
    ensures m in s.methods && m.digest == digest && FindMethod(s.methods, m.methodId) == Some(m)
    ensures m.methodId in Apply(s.methods, MethodId)
  {
    var i :| 0 <= i < |s.methods| && Apply(s.methods, MethodDigest)[i] == digest;
    m := s.methods[i];
    assert Apply(s.methods, MethodId)[i] == m.methodId;
    var found := FindMethod(s.methods, m.methodId).value;
    var j :| 0 <= j < |s.methods| && s.methods[j] == found;
    assert Apply(s.methods, MethodId)[j] == m.methodId;
  }

  /** Every method of an evaluated set covers exactly the public cases. */
  lemma EvaluatedEvidence(s: Setup, answer: RunKey -> RunOutcome, order: seq<RunKey>, digest: string)
    requires s.Valid() && ValidOrder(s, order) && digest in Apply(s.methods, MethodDigest)
    ensures Elements(EvidenceList(Evaluated(s, answer, order).runs, digest)) == Elements(s.cases)
    ensures |EvidenceList(Evaluated(s, answer, order).runs, digest)| == |s.cases|
  {
    var runs := Evaluated(s, answer, order).runs;
    var m := MethodOfDigest(s, digest);
    forall e ensures e in EvidenceList(runs, digest) <==> e in s.cases {
      EvidenceMembers(runs, digest, e);
      if r :| r in runs && KeyOfRun(r) == (digest, e) {
        RunsComeFromKeys(s, answer, order, r);
      }
      if e in s.cases {
        KeysHaveRuns(s, answer, order, RunKey(m.methodId, e));
        var r :| r in runs && IsRunOf(s, r, RunKey(m.methodId, e));
        assert KeyOfRun(r) == (digest, e);
      }
    }
    EvaluatedKeysDistinct(s, answer, order);
    EvidenceDistinct(runs, digest);
    DistinctCardinality(EvidenceList(runs, digest));
    DistinctCardinality(s.cases);
    assert Elements(EvidenceList(runs, digest)) == Elements(s.cases);
  }

  lemma EvaluatedRequests(s: Setup, answer: RunKey -> RunOutcome, order: seq<RunKey>)
    requires Releasable(s) && ValidOrder(s, order)
    ensures UniqueRequests(Evaluated(s, answer, order), |s.cases|)
  {
    var runs := Evaluated(s, answer, order).runs;
    forall r | r in runs ensures EvidenceOf(r) in s.cases && r.record.requestDigest == s.request(EvidenceOf(r)) {
      RunsComeFromKeys(s, answer, order, r);
    }
    forall e ensures e in AllEvidence(runs) <==> e in s.cases {
      if e in s.cases {
        assert Apply(s.methods, MethodId)[0] == s.methods[0].methodId;
        KeysHaveRuns(s, answer, order, RunKey(s.methods[0].methodId, e));
      }
    }
    assert AllEvidence(runs) == Elements(s.cases);
    DistinctCardinality(s.cases);
  }

  lemma EvaluatedIdentities(s: Setup, answer: RunKey -> RunOutcome, order: seq<RunKey>, r: ClaimRun)
    requires s.Valid() && ValidOrder(s, order) && r in Evaluated(s, answer, order).runs
    ensures Identified(Evaluated(s, answer, order), r) && r.methodDigest in Apply(s.methods, MethodDigest)
  {
    RunsComeFromKeys(s, answer, order, r);
    var m := FindMethod(s.methods, r.record.methodId).value;
    var i :| 0 <= i < |s.methods| && s.methods[i] == m;
    assert Apply(s.methods, MethodDigest)[i] == r.methodDigest;
    DigestsNameIds(s, FindDigest(s.methods, r.methodDigest).value, m);
  }

  lemma EvaluatedSameEvidence(s: Setup, answer: RunKey -> RunOutcome, order: seq<RunKey>)
    requires Releasable(s) && ValidOrder(s, order)
    ensures SameEvidence(Evaluated(s, answer, order), |s.cases|)
  {
    var c := Evaluated(s, answer, order);
    DistinctCardinality(s.cases);
    assert Apply(s.methods, MethodDigest)[0] == s.methods[0].digest;
    forall d | d in Apply(s.methods, MethodDigest)
      ensures |EvidenceList(c.runs, d)| == |s.cases| && Elements(EvidenceList(c.runs, d)) == Elements(s.cases)
    {
      EvaluatedEvidence(s, answer, order, d);
    }
  }

  /** Whatever the schedule and whatever the workers answer, an evaluated claim
      set passes the claim-set validators. */
  lemma EvaluatedSetsAreValid(s: Setup, answer: RunKey -> RunOutcome, order: seq<RunKey>)
    requires Releasable(s) && ValidOrder(s, order)
    ensures ValidRuns(Evaluated(s, answer, order), |s.cases|)
  {
    var c := Evaluated(s, answer, order);
    EvaluatedKeysDistinct(s, answer, order);
    DistinctCardinality(Apply(c.runs, KeyOfRun));
    forall r | r in c.runs ensures Identified(c, r) && r.methodDigest in Apply(c.methods, MethodDigest) {
      EvaluatedIdentities(s, answer, order, r);
    }
    ByKeyIsOrdered(RunSortKey(s.methods));
    SortSorts(RunOrder(s.methods), Apply(Apply(order, RecordFor(s, answer)), ToRun(s)));
    SortFixesSorted(RunOrder(s.methods), c.runs);
    EvaluatedSameEvidence(s, answer, order);
    EvaluatedRequests(s, answer, order);
  }
}
