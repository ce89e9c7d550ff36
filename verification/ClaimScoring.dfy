/** Joining a claim set with the truth and scoring every run
    (src/witnessgap/workspace100/scoring.py:1650-1808). */
module ClaimScoring {
  import opened Model
  import opened Order
  import opened Permutations
  import opened Attribution
  import opened WorkerRun
  import opened Views
  import opened Records
  import opened Projection
  import opened Routing
  import opened Truth
  import opened TruthSet
  import opened Denominators
  import opened Scores
  import opened Classifier
  import opened Baselines
  import opened Claims
  import opened ClaimRuns

  /** `Workspace100ScoredRun`; the run and the case stand for their digests. */
  datatype ScoredRun = ScoredRun(
    methodDigest: string, claimRun: ClaimRun, truthCase: TruthCase, evidenceDigest: string,
    templateId: TemplateId, split: Split, view: ViewKind,
    category: Category, failure: Option<FailureKind>)

  datatype ScoreError = RepeatedEvidence | RepeatedRun | RunMissing | RunUnbound | ForeignEvidence

  /** A method, by digest, and one of its cases. */
  type Cell = (string, TruthCase)

  function CellKey(cell: Cell): GridKey {
    (cell.0, cell.1.digest)
  }

  /** `claim_by_key.get(key)` */
  function FindRun(runs: seq<ClaimRun>, key: GridKey): (r: Option<ClaimRun>)
    ensures r.Some? ==> r.value in runs && KeyOfRun(r.value) == key
    ensures r.None? ==> forall x :: x in runs ==> KeyOfRun(x) != key
  {
    if runs == [] then None
    else if KeyOfRun(runs[0]) == key then Some(runs[0])
    else FindRun(runs[1..], key)
  }

  function Scored(cell: Cell, r: ClaimRun): ScoredRun {
    var c := cell.1;
    ScoredRun(
      cell.0, r, c, c.digest, c.publicCase.templateId, c.publicCase.split, c.publicCase.view,
      Classify(r.record.outcome, c), match r.record.outcome case Failed(f) => Some(f) case Claimed(_) => None)
  }

  /** The cell is scored, on a run with the given outcome. */
  ghost predicate ScoredOn(x: Option<ScoredRun>, cell: Cell, outcome: RunOutcome) {
    x.Some? && x.value == Scored(cell, x.value.claimRun) && x.value.claimRun.record.outcome == outcome
  }

  /** The checks of `_score_validated_claim_run`. */
  predicate Joins(request: Evidence -> string, r: ClaimRun, c: TruthCase) {
    && r.record.evidenceDigest == c.digest
    && r.record.requestDigest == request(c.publicCase.evidence)
    && c.certificate.registry == c.publicCase.evidence.registry
  }

  /** What one cell scores; `None` stands for every refusal. */
  function ScoreOf(runs: seq<ClaimRun>, request: Evidence -> string): Cell -> Option<ScoredRun> {
    (cell: Cell) =>
      match FindRun(runs, CellKey(cell))
      case None => None
      case Some(r) => if Joins(request, r, cell.1) then Some(Scored(cell, r)) else None
  }

  function CellOf(digest: string): TruthCase -> Cell {
    (c: TruthCase) => (digest, c)
  }

  function Row(cases: seq<TruthCase>): string -> seq<Cell> {
    (digest: string) => Apply(cases, CellOf(digest))
  }

  /** Methods by cases, method by method. */
  function Cells(digests: seq<string>, cases: seq<TruthCase>): seq<Cell> {
    Flat(digests, Row(cases))
  }

  /** What `score_workspace100_claims` accepts: distinct cases and runs, a run
      that joins for every cell, and no run of any other evidence. */
  ghost predicate Scorable(claims: ClaimSet, cases: seq<TruthCase>, request: Evidence -> string) {
    var cells := Cells(Apply(claims.methods, MethodDigest), cases);
    && Distinct(Apply(cases, DigestOfTruth)) && Distinct(Apply(claims.runs, KeyOfRun))
    && (forall i :: 0 <= i < |cells| ==> ScoreOf(claims.runs, request)(cells[i]).Some?)
    && Elements(Apply(claims.runs, KeyOfRun)) == Elements(Apply(cells, CellKey))
  }

  // ---------- the loops ----------

  ghost predicate SomeRefused(f: Cell -> Option<ScoredRun>, cells: seq<Cell>) {
    exists i :: 0 <= i < |cells| && f(cells[i]).None?
  }

  lemma RowNext(digests: seq<string>, cases: seq<TruthCase>, i: nat)
    requires i < |digests|
    ensures Cells(digests[..i + 1], cases) == Cells(digests[..i], cases) + Row(cases)(digests[i])
    ensures |Cells(digests[..i + 1], cases)| <= |Cells(digests, cases)|
    ensures Cells(digests[..i + 1], cases) == Cells(digests, cases)[..|Cells(digests[..i + 1], cases)|]
  {
    assert digests[..i + 1] == digests[..i] + [digests[i]];
    FlatMore(digests[..i], digests[i], Row(cases));
    assert digests == digests[..i + 1] + digests[i + 1..];
    FlatConcatenation(digests[..i + 1], digests[i + 1..], Row(cases));
  }

  lemma AnswersMore<A, B>(f: A -> Option<B>, xs: seq<A>, ys: seq<B>, more: seq<A>, found: seq<B>)
    requires Answers(f, xs, ys) && Answers(f, more, found)
    ensures Answers(f, xs + more, ys + found)
  {
  }

  /** The inner loop: one method over all cases. */
  method ScoreRow(runs: seq<ClaimRun>, request: Evidence -> string, digest: string, cases: seq<TruthCase>)
    returns (r: Result<seq<ScoredRun>, ScoreError>)
    ensures r.Ok? ==> Answers(ScoreOf(runs, request), Row(cases)(digest), r.value)
    ensures r.Err? ==> SomeRefused(ScoreOf(runs, request), Row(cases)(digest))
  {
    var scored: seq<ScoredRun> := [];
    ghost var f, row := ScoreOf(runs, request), Row(cases)(digest);
    for i := 0 to |cases|
      invariant Answers(f, row[..i], scored)
    {
      assert row[i] == (digest, cases[i]);
      var run := FindRun(runs, (digest, cases[i].digest));
      if run.None? {
        return Err(RunMissing);
      }
      if !Joins(request, run.value, cases[i]) {
        return Err(RunUnbound);
      }
      AnswersNext(f, row, scored, i, Scored(row[i], run.value));
      scored := scored + [Scored((digest, cases[i]), run.value)];
    }
    assert row[..|cases|] == row;
    r := Ok(scored);
  }

  lemma RefusedInRow(f: Cell -> Option<ScoredRun>, digests: seq<string>, cases: seq<TruthCase>, i: nat)
    requires i < |digests| && SomeRefused(f, Row(cases)(digests[i]))
    ensures SomeRefused(f, Cells(digests, cases))
  {
    var row := Row(cases)(digests[i]);
    var k :| 0 <= k < |row| && f(row[k]).None?;
    RowNext(digests, cases, i);
    var before := |Cells(digests[..i], cases)|;
    assert Cells(digests[..i + 1], cases)[before + k] == row[k];
    assert Cells(digests, cases)[before + k] == row[k];
  }

  /** The outer loop, over the methods. */
  method ScoreCells(runs: seq<ClaimRun>, request: Evidence -> string, digests: seq<string>, cases: seq<TruthCase>)
    returns (r: Result<seq<ScoredRun>, ScoreError>)
    ensures r.Ok? ==> Answers(ScoreOf(runs, request), Cells(digests, cases), r.value)
    ensures r.Err? ==> SomeRefused(ScoreOf(runs, request), Cells(digests, cases))
  {
    var scored: seq<ScoredRun> := [];
    ghost var f := ScoreOf(runs, request);
    for i := 0 to |digests|
      invariant Answers(f, Cells(digests[..i], cases), scored)
    {
      var row := ScoreRow(runs, request, digests[i], cases);
      if row.Err? {
        RefusedInRow(f, digests, cases, i);
        return Err(row.error);
      }
      RowNext(digests, cases, i);
      AnswersMore(f, Cells(digests[..i], cases), scored, Row(cases)(digests[i]), row.value);
      scored := scored + row.value;
    }
    assert digests[..|digests|] == digests;
    r := Ok(scored);
  }

  /** The join and the scoring of `score_workspace100_claims`: it succeeds exactly
      on scorable input, with one scored run a cell, methods before cases. */
  method ScoreClaims(claims: ClaimSet, cases: seq<TruthCase>, request: Evidence -> string)
    returns (r: Result<seq<ScoredRun>, ScoreError>)
    ensures r.Ok? <==> Scorable(claims, cases, request)
    ensures r.Ok? ==>
      Answers(ScoreOf(claims.runs, request), Cells(Apply(claims.methods, MethodDigest), cases), r.value)
  {
    DistinctCardinality(Apply(cases, DigestOfTruth));
    DistinctCardinality(Apply(claims.runs, KeyOfRun));
    if |Elements(Apply(cases, DigestOfTruth))| != |cases| {
      return Err(RepeatedEvidence);
    }
    if |Elements(Apply(claims.runs, KeyOfRun))| != |claims.runs| {
      return Err(RepeatedRun);
    }
    var digests := Apply(claims.methods, MethodDigest);
    r := ScoreCells(claims.runs, request, digests, cases);
    if r.Ok? && Elements(Apply(claims.runs, KeyOfRun)) != Elements(Apply(Cells(digests, cases), CellKey)) {
      return Err(ForeignEvidence);
    }
  }

  // ---------- an evaluated claim set is scored as its workers answered ----------

  /** The setup runs the cases of this truth, on the requests made from their evidence. */
  ghost predicate Runs(s: Setup, cases: seq<TruthCase>, request: Evidence -> string) {
    && s.cases == Apply(cases, DigestOfTruth)
    && forall c :: c in cases ==> s.request(c.digest) == request(c.publicCase.evidence)
  }

  /** Certificates name the registry of the evidence that they judge. */
  ghost predicate OneRegistry(cases: seq<TruthCase>) {
    forall c :: c in cases ==> c.certificate.registry == c.publicCase.evidence.registry
  }

  lemma CellMember(digests: seq<string>, cases: seq<TruthCase>, cell: Cell)
    ensures cell in Cells(digests, cases) <==> cell.0 in digests && cell.1 in cases
  {
    FlatMembers(digests, Row(cases), cell);
    if cell.0 in digests && cell.1 in cases {
      var k :| 0 <= k < |cases| && cases[k] == cell.1;
      assert Row(cases)(cell.0)[k] == cell;
    }
    if d :| d in digests && cell in Row(cases)(d) {
      var k :| 0 <= k < |cases| && Row(cases)(d)[k] == cell;
      assert cell == (d, cases[k]);
    }
  }

  /** The run of a cell is found, and holds the worker's answer for its key. */
  lemma RunIsFound(s: Setup, answer: RunKey -> RunOutcome, order: seq<RunKey>, m: ClaimMethod, evidence: string)
    requires s.Valid() && ValidOrder(s, order) && m in s.methods && evidence in s.cases
    ensures var found := FindRun(Evaluated(s, answer, order).runs, (m.digest, evidence));
      && found.Some? && found.value.record.outcome == answer(RunKey(m.methodId, evidence))
      && found.value.record.evidenceDigest == evidence && found.value.record.requestDigest == s.request(evidence)
  {
    var k := RunKey(m.methodId, evidence);
    MethodIsFound(s, m);
    KeysHaveRuns(s, answer, order, k);
    var r :| r in Evaluated(s, answer, order).runs && IsRunOf(s, r, k) && r.record.outcome == answer(k);
    assert KeyOfRun(r) == (m.digest, evidence);
    var found := FindRun(Evaluated(s, answer, order).runs, (m.digest, evidence)).value;
    RunsComeFromKeys(s, answer, order, found);
    SameMethodSameId(s, found, r, found.record.Key(), k);
  }

  lemma MethodIsFound(s: Setup, m: ClaimMethod)
    requires s.Valid() && m in s.methods
    ensures FindMethod(s.methods, m.methodId) == Some(m) && m.methodId in Apply(s.methods, MethodId)
    ensures m.digest in Apply(s.methods, MethodDigest)
  {
    var i :| 0 <= i < |s.methods| && s.methods[i] == m;
    assert Apply(s.methods, MethodId)[i] == m.methodId && Apply(s.methods, MethodDigest)[i] == m.digest;
    var found := FindMethod(s.methods, m.methodId).value;
    var j :| 0 <= j < |s.methods| && s.methods[j] == found;
    assert Apply(s.methods, MethodId)[j] == m.methodId;
  }

  lemma CellIsScored(
      s: Setup, answer: RunKey -> RunOutcome, order: seq<RunKey>, cases: seq<TruthCase>, request: Evidence -> string,
      m: ClaimMethod, c: TruthCase)
    requires s.Valid() && ValidOrder(s, order) && m in s.methods && c in cases
    requires Runs(s, cases, request) && OneRegistry(cases)
    ensures ScoredOn(
      ScoreOf(Evaluated(s, answer, order).runs, request)((m.digest, c)),
      (m.digest, c), answer(RunKey(m.methodId, c.digest)))
  {
    var k :| 0 <= k < |cases| && cases[k] == c;
    assert s.cases[k] == c.digest;
    RunIsFound(s, answer, order, m, c.digest);
  }

  lemma CellKeyListed(digests: seq<string>, cases: seq<TruthCase>, k: GridKey)
    ensures k in Apply(Cells(digests, cases), CellKey) <==> k.0 in digests && k.1 in Apply(cases, DigestOfTruth)
  {
    var cells, listed := Cells(digests, cases), Apply(cases, DigestOfTruth);
    if k.0 in digests && k.1 in listed {
      var j :| 0 <= j < |cases| && listed[j] == k.1;
      CellMember(digests, cases, (k.0, cases[j]));
      var i :| 0 <= i < |cells| && cells[i] == (k.0, cases[j]);
      assert Apply(cells, CellKey)[i] == k;
    }
    if k in Apply(cells, CellKey) {
      var i :| 0 <= i < |cells| && Apply(cells, CellKey)[i] == k;
      CellMember(digests, cases, cells[i]);
      var j :| 0 <= j < |cases| && cases[j] == cells[i].1;
      assert listed[j] == k.1;
    }
  }

  lemma EvaluatedKeys(s: Setup, answer: RunKey -> RunOutcome, order: seq<RunKey>, k: GridKey)
    requires s.Valid() && ValidOrder(s, order)
    ensures k in Apply(Evaluated(s, answer, order).runs, KeyOfRun)
      <==> k.0 in Apply(s.methods, MethodDigest) && k.1 in s.cases
  {
    var runs := Evaluated(s, answer, order).runs;
    KeyMembers(runs, k);
    if r :| r in runs && KeyOfRun(r) == k {
      RunsComeFromKeys(s, answer, order, r);
      MethodIsFound(s, FindMethod(s.methods, r.record.methodId).value);
    }
    if k.0 in Apply(s.methods, MethodDigest) && k.1 in s.cases {
      var n :| 0 <= n < |s.methods| && Apply(s.methods, MethodDigest)[n] == k.0;
      RunIsFound(s, answer, order, s.methods[n], k.1);
    }
  }

  lemma EachCellIsScored(
      s: Setup, answer: RunKey -> RunOutcome, order: seq<RunKey>, cases: seq<TruthCase>, request: Evidence -> string,
      cell: Cell)
    requires s.Valid() && ValidOrder(s, order) && Runs(s, cases, request) && OneRegistry(cases)
    requires cell in Cells(Apply(s.methods, MethodDigest), cases)
    ensures ScoreOf(Evaluated(s, answer, order).runs, request)(cell).Some?
  {
    var digests := Apply(s.methods, MethodDigest);
    CellMember(digests, cases, cell);
    var n :| 0 <= n < |s.methods| && digests[n] == cell.0;
    CellIsScored(s, answer, order, cases, request, s.methods[n], cell.1);
  }

  /** Whatever the schedule and whatever the workers answer, the claim set of an
      evaluation is accepted by the scorer of its own truth. */
  lemma EvaluatedIsScorable(
      s: Setup, answer: RunKey -> RunOutcome, order: seq<RunKey>, cases: seq<TruthCase>, request: Evidence -> string)
    requires s.Valid() && ValidOrder(s, order) && Runs(s, cases, request) && OneRegistry(cases)
    ensures Scorable(Evaluated(s, answer, order), cases, request)
  {
    var claims := Evaluated(s, answer, order);
    var cells := Cells(Apply(s.methods, MethodDigest), cases);
    EvaluatedKeysDistinct(s, answer, order);
    forall i | 0 <= i < |cells| ensures ScoreOf(claims.runs, request)(cells[i]).Some? {
      EachCellIsScored(s, answer, order, cases, request, cells[i]);
    }
    forall k ensures k in Elements(Apply(claims.runs, KeyOfRun)) <==> k in Elements(Apply(cells, CellKey)) {
      EvaluatedKeys(s, answer, order, k);
      CellKeyListed(Apply(s.methods, MethodDigest), cases, k);
    }
  }

  // ---------- the scored runs of one method ----------

  function ByMethod(digest: string): ScoredRun -> bool {
    (r: ScoredRun) => r.methodDigest == digest
  }

  function InMethod(digest: string): Cell -> bool {
    (cell: Cell) => cell.0 == digest
  }

  function ScoredCategory(r: ScoredRun): Category {
    r.category
  }

  /** What a method that answers `says` on each case is scored. */
  function Graded(says: TruthCase -> RunOutcome): TruthCase -> Category {
    (c: TruthCase) => Classify(says(c), c)
  }

  lemma {:induction false} AnswersFilter(
      f: Cell -> Option<ScoredRun>, cells: seq<Cell>, scored: seq<ScoredRun>, p: Cell -> bool, q: ScoredRun -> bool)
    requires Answers(f, cells, scored)
    requires forall x :: x in cells && f(x).Some? ==> (p(x) <==> q(f(x).value))
    ensures Answers(f, Filter(cells, p), Filter(scored, q))
  {
    if cells != [] {
      assert cells[0] in cells && f(cells[0]) == Some(scored[0]);
      forall i | 0 <= i < |cells| - 1 ensures f(cells[1..][i]) == Some(scored[1..][i]) {
        assert f(cells[i + 1]) == Some(scored[i + 1]);
      }
      AnswersFilter(f, cells[1..], scored[1..], p, q);
      AnswersMore(
        f, if p(cells[0]) then [cells[0]] else [], if q(scored[0]) then [scored[0]] else [],
        Filter(cells[1..], p), Filter(scored[1..], q));
    }
  }

  lemma RowOfMethod(digests: seq<string>, cases: seq<TruthCase>, n: nat)
    requires Distinct(digests) && n < |digests|
    ensures Filter(Cells(digests, cases), InMethod(digests[n])) == Row(cases)(digests[n])
  {
    var p := InMethod(digests[n]);
    forall j, x | 0 <= j < |digests| && j != n && x in Row(cases)(digests[j]) ensures !p(x) {
      assert digests[if j < n then j else n] != digests[if j < n then n else j];
    }
    FilterOnePair(digests, Row(cases), p, n);
    FilterEverything(Row(cases)(digests[n]), p);
  }

  /** The scored runs of a method are its own row, in truth order. */
  lemma ScoredByMethod(
      runs: seq<ClaimRun>, request: Evidence -> string, digests: seq<string>, cases: seq<TruthCase>,
      scored: seq<ScoredRun>, n: nat)
    requires Answers(ScoreOf(runs, request), Cells(digests, cases), scored) && Distinct(digests) && n < |digests|
    ensures Answers(ScoreOf(runs, request), Row(cases)(digests[n]), Filter(scored, ByMethod(digests[n])))
  {
    AnswersFilter(ScoreOf(runs, request), Cells(digests, cases), scored, InMethod(digests[n]), ByMethod(digests[n]));
    RowOfMethod(digests, cases, n);
  }

  lemma RowCategories(
      f: Cell -> Option<ScoredRun>, digest: string, cases: seq<TruthCase>, row: seq<ScoredRun>,
      says: TruthCase -> RunOutcome)
    requires Answers(f, Row(cases)(digest), row)
    requires forall c :: c in cases ==> ScoredOn(f((digest, c)), (digest, c), says(c))
    ensures Apply(row, ScoredCategory) == Apply(cases, Graded(says))
  {
    forall k | 0 <= k < |cases| ensures row[k].category == Graded(says)(cases[k]) {
      assert Row(cases)(digest)[k] == (digest, cases[k]) && cases[k] in cases;
      assert f(Row(cases)(digest)[k]) == Some(row[k]);
    }
  }

  /** The scored runs of a method are one row, each on its worker's answer. */
  lemma RowIsScored(
      s: Setup, answer: RunKey -> RunOutcome, order: seq<RunKey>, cases: seq<TruthCase>, request: Evidence -> string,
      scored: seq<ScoredRun>, n: nat, says: TruthCase -> RunOutcome)
    requires s.Valid() && ValidOrder(s, order) && Runs(s, cases, request) && OneRegistry(cases) && n < |s.methods|
    requires forall c :: c in cases ==> answer(RunKey(s.methods[n].methodId, c.digest)) == says(c)
    requires Answers(
      ScoreOf(Evaluated(s, answer, order).runs, request), Cells(Apply(s.methods, MethodDigest), cases), scored)
    ensures var f, digest := ScoreOf(Evaluated(s, answer, order).runs, request), s.methods[n].digest;
      && Answers(f, Row(cases)(digest), Filter(scored, ByMethod(digest)))
      && forall c :: c in cases ==> ScoredOn(f((digest, c)), (digest, c), says(c))
  {
    var runs, digests := Evaluated(s, answer, order).runs, Apply(s.methods, MethodDigest);
    ScoredByMethod(runs, request, digests, cases, scored, n);
    forall c | c in cases ensures ScoredOn(ScoreOf(runs, request)((digests[n], c)), (digests[n], c), says(c)) {
      CellIsScored(s, answer, order, cases, request, s.methods[n], c);
    }
  }

  /** Evaluate, join and score: the categories of a method, in truth order, are
      what its workers' answers deserve. */
  lemma ScoredAsAnswered(
      s: Setup, answer: RunKey -> RunOutcome, order: seq<RunKey>, cases: seq<TruthCase>, request: Evidence -> string,
      scored: seq<ScoredRun>, n: nat, says: TruthCase -> RunOutcome)
    requires s.Valid() && ValidOrder(s, order) && Runs(s, cases, request) && OneRegistry(cases) && n < |s.methods|
    requires forall c :: c in cases ==> answer(RunKey(s.methods[n].methodId, c.digest)) == says(c)
    requires Answers(
      ScoreOf(Evaluated(s, answer, order).runs, request), Cells(Apply(s.methods, MethodDigest), cases), scored)
    ensures Apply(Filter(scored, ByMethod(s.methods[n].digest)), ScoredCategory) == Apply(cases, Graded(says))
  {
    var digest := s.methods[n].digest;
    RowIsScored(s, answer, order, cases, request, scored, n, says);
    RowCategories(
      ScoreOf(Evaluated(s, answer, order).runs, request), digest, cases, Filter(scored, ByMethod(digest)), says);
  }

  // ---------- the built-in baselines, end to end ----------

  /** What a baseline answers on each case of a truth set. */
  function BaselineSays(baseline: Baseline, protocol: Protocol): TruthCase -> RunOutcome {
    (c: TruthCase) => BaselineRun(baseline, protocol.templates(c.publicCase.templateId), c)
  }

  lemma TruthOfOneRegistry(protocol: Protocol, ms: seq<PairMaterial>)
    requires SoundMaterials(protocol, ms)
    ensures OneRegistry(TruthFor(protocol, ms).cases)
  {
    forall c | c in TruthFor(protocol, ms).cases ensures c.certificate.registry == c.publicCase.evidence.registry {
      SortKeeps(ByKey(TruthKey), Flat(ms, PairTruths(protocol)), c);
      var i, s := TruthFrom(protocol, ms, c);
      TruthRegistry(protocol, ms[i], s);
    }
  }

  lemma TruthRegistry(protocol: Protocol, m: PairMaterial, s: Slot)
    requires TwinShots(Shots(m), m.manifest)
    ensures var c := TruthAt(protocol, m)(s); c.certificate.registry == c.publicCase.evidence.registry
  {
    TruthIsPublic(protocol, m, s);
    SlotShowsRegistry(m, s);
  }

  lemma SlotShowsRegistry(m: PairMaterial, s: Slot)
    requires TwinShots(Shots(m), m.manifest)
    ensures SlotCase(m)(s).evidence.registry == m.manifest && CertificateOf(m, s.0, s.1).registry == m.manifest
  {
    var shown := Shots(m);
    assert shown(s.0, s.1).registry == m.manifest;
  }

  lemma BaselineGrades(baseline: Baseline, protocol: Protocol, cases: seq<TruthCase>)
    ensures Apply(cases, Graded(BaselineSays(baseline, protocol))) == Apply(cases, GradeOf(baseline, protocol))
  {
    var says := BaselineSays(baseline, protocol);
    forall i | 0 <= i < |cases| ensures Graded(says)(cases[i]) == GradeOf(baseline, protocol)(cases[i]) {
      BaselineGrade(baseline, protocol, cases[i]);
    }
  }

  lemma BaselineGrade(baseline: Baseline, protocol: Protocol, c: TruthCase)
    ensures Graded(BaselineSays(baseline, protocol))(c) == GradeOf(baseline, protocol)(c)
  {
    var t := protocol.templates(c.publicCase.templateId);
    assert BaselineSays(baseline, protocol)(c) == BaselineRun(baseline, t, c);
    assert GradeOf(baseline, protocol)(c) == BaselineCategory(baseline, t)(c);
  }

  /** From workers to report: a method whose workers answer as a built-in
      baseline does is accepted by the scorer under every schedule and whatever
      the other methods answer, and scores exactly that baseline's counts. */
  lemma BaselineIsScored(
      protocol: Protocol, ms: seq<PairMaterial>, s: Setup, answer: RunKey -> RunOutcome, order: seq<RunKey>,
      request: Evidence -> string, scored: seq<ScoredRun>, n: nat, baseline: Baseline)
    requires SoundMaterials(protocol, ms) && s.Valid() && ValidOrder(s, order) && n < |s.methods|
    requires Runs(s, TruthFor(protocol, ms).cases, request)
    requires forall c :: c in TruthFor(protocol, ms).cases ==>
      answer(RunKey(s.methods[n].methodId, c.digest)) == BaselineSays(baseline, protocol)(c)
    requires Scorable(Evaluated(s, answer, order), TruthFor(protocol, ms).cases, request) ==> Answers(
      ScoreOf(Evaluated(s, answer, order).runs, request),
      Cells(Apply(s.methods, MethodDigest), TruthFor(protocol, ms).cases), scored)
    ensures Scorable(Evaluated(s, answer, order), TruthFor(protocol, ms).cases, request)
    ensures CountCategories(Apply(Filter(scored, ByMethod(s.methods[n].digest)), ScoredCategory))
      == Scaled(PairCounts(baseline), |ms|)
  {
    var cases := TruthFor(protocol, ms).cases;
    TruthOfOneRegistry(protocol, ms);
    EvaluatedIsScorable(s, answer, order, cases, request);
    ScoredAsAnswered(s, answer, order, cases, request, scored, n, BaselineSays(baseline, protocol));
    BaselineGrades(baseline, protocol, cases);
    BaselinesScaleLinearly(baseline, protocol, ms);
  }
}
