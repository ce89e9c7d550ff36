/** Template macros: the unweighted mean over templates of each metric, for all
    views or one (src/witnessgap/workspace100/scoring.py:1095-1190, 2283-2317). */
module Macros {
  import opened Model
  import opened Permutations
  import opened Records
  import opened Views
  import opened WorkerRun
  import opened Attribution
  import opened Truth
  import opened Ratios
  import opened Scores
  import opened Slices
  import opened Classifier
  import opened Metrics
  import opened Claims
  import ClaimScoring

  datatype Metric =
    | DecisiveCoverage
    | FalseCertaintyRisk
    | FalseCertaintyIncidence
    | AmbiguityFalseCertainty
    | AbstentionRate
    | ExactTargetFamily
    | ExactMinimalWitness

  // ---------- as computed ----------

  function RateOf(m: ScoreMetrics, k: Metric): Rate {
    match k
    case DecisiveCoverage => m.decisiveCoverage
    case FalseCertaintyRisk => m.falseCertaintyRisk
    case FalseCertaintyIncidence => m.falseCertaintyIncidence
    case AmbiguityFalseCertainty => m.ambiguityFalseCertainty
    case AbstentionRate => m.correctAbstention
    case ExactTargetFamily => m.exactTargetFamily
    case ExactMinimalWitness => m.exactMinimalWitness
  }

  /** The rate of one metric in a slice. */
  function SliceRate(k: Metric): Slice -> Rate {
    (s: Slice) =>
      MetricsExist(s.counts);
      RateOf(MetricsFor(s.counts).value, k)
  }

  function AtGrain(view: Option<ViewKind>): Slice -> bool {
    (s: Slice) => s.dimension.kind == (if view.None? then ByTemplate else ByViewTemplate) && s.dimension.view == view
  }

  function TemplateOfSlice(s: Slice): Option<TemplateId> {
    s.dimension.templateId
  }

  /** `_template_slices_for`: one slice for every template, in order. */
  function TemplateSlicesFor(slices: seq<Slice>, view: Option<ViewKind>): Option<seq<Slice>> {
    var selected := Filter(slices, AtGrain(view));
    if Apply(selected, TemplateOfSlice) == Apply(TEMPLATE_ORDER, (t: TemplateId) => Some(t)) then Some(selected)
    else None
  }

  /** One metric of `_build_template_macros`; `None` stands for its refusal. */
  function TemplateMacro(slices: seq<Slice>, view: Option<ViewKind>, k: Metric): Option<MacroRate> {
    match TemplateSlicesFor(slices, view)
    case None => None
    case Some(selected) => Some(FromRates(Apply(selected, SliceRate(k))))
  }

  // ---------- as meant ----------

  /** The runs that a metric counts, and those that it counts among. */
  function Having(k: Metric): Scored -> bool {
    match k
    case DecisiveCoverage => Committed()
    case FalseCertaintyRisk => FalselyCertain()
    case FalseCertaintyIncidence => FalselyCertain()
    case AmbiguityFalseCertainty => CommittedThough()
    case AbstentionRate => RightlyAbstained()
    case ExactTargetFamily => FamilyNamed()
    case ExactMinimalWitness => TruthStated()
  }

  function Among(k: Metric): Scored -> bool {
    match k
    case DecisiveCoverage => Every()
    case FalseCertaintyRisk => Committed()
    case FalseCertaintyIncidence => Every()
    case AmbiguityFalseCertainty => Ambiguous()
    case AbstentionRate => Ambiguous()
    case ExactTargetFamily => Identifiable()
    case ExactMinimalWitness => Identifiable()
  }

  function InCell(view: Option<ViewKind>, t: TemplateId): Scored -> bool {
    (x: Scored) =>
      (view == None || view == Some(x.truth.publicCase.view)) && x.truth.publicCase.templateId == t
  }

  /** The scored runs of one template, under one view or all. */
  function CasesIn(cases: seq<Scored>, view: Option<ViewKind>): TemplateId -> seq<Scored> {
    (t: TemplateId) => Filter(cases, InCell(view, t))
  }

  function Counts(cases: seq<Scored>, view: Option<ViewKind>, k: Metric): TemplateId -> bool {
    (t: TemplateId) => HowMany(CasesIn(cases, view)(t), Among(k)) > 0
  }

  ghost function ShareIn(cases: seq<Scored>, view: Option<ViewKind>, k: Metric): TemplateId -> real {
    (t: TemplateId) =>
      var among := HowMany(CasesIn(cases, view)(t), Among(k));
      if among > 0 then Value(HowMany(CasesIn(cases, view)(t), Having(k)), among) else 0.0
  }

  /** The shares of the templates in which the metric counts anything. */
  ghost function TemplateShares(cases: seq<Scored>, view: Option<ViewKind>, k: Metric): seq<real> {
    Apply(Filter(TEMPLATE_ORDER, Counts(cases, view, k)), ShareIn(cases, view, k))
  }

  ghost function SumOf(xs: seq<real>): real {
    if xs == [] then 0.0 else SumOf(xs[..|xs| - 1]) + xs[|xs| - 1]
  }

  /** A valid macro rate whose value is the mean of these numbers, if there are any. */
  ghost predicate IsMean(macro: MacroRate, xs: seq<real>) {
    && macro.Valid() && macro.definedCount == |xs|
    && (macro.ratio.Ratio? ==>
          && macro.ratio.denominator > 0 && xs != []
          && Value(macro.ratio.numerator, macro.ratio.denominator) == SumOf(xs) / |xs| as real)
  }

  // ---------- the mean of shares ----------

  lemma ValidRateMeans(r: Rate)
    requires r.Valid()
    ensures IsDefined()(r) <==> r.denominator > 0
    ensures r.denominator > 0 ==> Worth(AsFraction(r)) == Value(r.numerator, r.denominator)
  {
    CountsGiveRate(r.numerator, r.denominator);
    FromFractionIsCanonical(r.numerator, r.denominator);
  }

  lemma {:induction false} TotalIsSum(fs: seq<Fraction>, xs: seq<real>)
    requires |xs| == |fs| && forall i :: 0 <= i < |fs| ==> Worth(fs[i]) == xs[i]
    ensures Total(fs) == SumOf(xs)
  {
    if fs != [] {
      TotalIsSum(fs[..|fs| - 1], xs[..|xs| - 1]);
    }
  }

  /** The rate of a template is its share, or the template counts nothing. */
  ghost predicate Rates(
    rate: TemplateId -> Rate, counts: TemplateId -> bool, share: TemplateId -> real, t: TemplateId)
  {
    && rate(t).Valid() && (counts(t) <==> rate(t).denominator > 0)
    && (rate(t).denominator > 0 ==> share(t) == Value(rate(t).numerator, rate(t).denominator))
  }

  lemma MacroOfShares(
      templates: seq<TemplateId>, rate: TemplateId -> Rate, counts: TemplateId -> bool, share: TemplateId -> real)
    requires forall t :: Rates(rate, counts, share, t)
    ensures IsMean(FromRates(Apply(templates, rate)), Apply(Filter(templates, counts), share))
  {
    var rates, kept := Apply(templates, rate), Filter(templates, counts);
    forall t ensures counts(t) <==> IsDefined()(rate(t)) {
      assert Rates(rate, counts, share, t);
      ValidRateMeans(rate(t));
    }
    ApplyFilter(templates, rate, counts, IsDefined());
    var fs, xs := Defined(rates), Apply(kept, share);
    forall i | 0 <= i < |kept| ensures Worth(fs[i]) == xs[i] {
      assert kept[i] in kept && Rates(rate, counts, share, kept[i]);
      ValidRateMeans(rate(kept[i]));
      assert fs[i] == AsFraction(rate(kept[i]));
    }
    TotalIsSum(fs, xs);
    forall r | r in rates ensures r.Valid() {
      var i :| 0 <= i < |templates| && rates[i] == r;
      assert Rates(rate, counts, share, templates[i]);
    }
    MacroIsMean(rates);
  }

  // ---------- the slices of a report ----------

  function GrainDimension(view: Option<ViewKind>): TemplateId -> Dimension {
    match view
    case None => TemplateDimension()
    case Some(v) => CellDimension(v)
  }

  function DimensionAtGrain(view: Option<ViewKind>): Dimension -> bool {
    (d: Dimension) => d.kind == (if view.None? then ByTemplate else ByViewTemplate) && d.view == view
  }

  lemma NoCells(q: Dimension -> bool)
    requires forall d :: q(d) ==> d.kind != ByViewTemplate
    ensures Filter(Rows(), q) == []
  {
    forall i | 0 <= i < |Rows()| ensures !q(Rows()[i]) {
      RowsAreCells(i);
    }
    FilterNothing(Rows(), q);
  }

  lemma OverallGrain()
    ensures Filter(SliceDimensions(), DimensionAtGrain(None)) == Apply(TEMPLATE_ORDER, TemplateDimension())
  {
    var q := DimensionAtGrain(None);
    FilterDimensions(q);
    FilterNothing([Dimension(Overall, None, None)], q);
    FilterNothing(Apply(VIEW_ORDER, ViewDimension()), q);
    FilterEverything(Apply(TEMPLATE_ORDER, TemplateDimension()), q);
    NoCells(q);
  }

  lemma GrainDimensions(view: Option<ViewKind>)
    ensures Filter(SliceDimensions(), DimensionAtGrain(view)) == Apply(TEMPLATE_ORDER, GrainDimension(view))
  {
    match view {
      case None => OverallGrain();
      case Some(v) =>
        SameFilter(SliceDimensions(), DimensionAtGrain(view), CellInView(view));
        CellsInView(v);
    }
  }

  lemma {:induction false} SameFilter<T(!new)>(s: seq<T>, p: T -> bool, q: T -> bool)
    requires forall x :: p(x) <==> q(x)
    ensures Filter(s, p) == Filter(s, q)
  {
    if s != [] {
      SameFilter(s[1..], p, q);
    }
  }

  function BuiltAt(observations: seq<Observation>, view: Option<ViewKind>): TemplateId -> Slice {
    (t: TemplateId) => BuildSlice(observations)(GrainDimension(view)(t))
  }

  /** The selection finds one slice for every template in any built collection. */
  lemma BuiltTemplateSlices(observations: seq<Observation>, view: Option<ViewKind>)
    ensures TemplateSlicesFor(BuildSlices(observations), view)
      == Some(Apply(TEMPLATE_ORDER, BuiltAt(observations, view)))
  {
    SlicesWhere(observations, AtGrain(view), DimensionAtGrain(view));
    GrainDimensions(view);
    var built := Apply(TEMPLATE_ORDER, BuiltAt(observations, view));
    assert Apply(Apply(TEMPLATE_ORDER, GrainDimension(view)), BuildSlice(observations)) == built;
    forall t ensures TemplateOfSlice(BuiltAt(observations, view)(t)) == Some(t) {
      GrainTemplate(view, t);
    }
    assert Apply(built, TemplateOfSlice) == Apply(TEMPLATE_ORDER, (t: TemplateId) => Some(t));
  }

  lemma GrainTemplate(view: Option<ViewKind>, t: TemplateId)
    ensures GrainDimension(view)(t).templateId == Some(t) && GrainDimension(view)(t).view == view
  {
  }

  /** The observation of a scored run. */
  function ObservationOf(): Scored -> Observation {
    (x: Scored) => Observe(x.run, x.truth)
  }

  lemma CellCounts(cases: seq<Scored>, view: Option<ViewKind>, t: TemplateId)
    ensures BuiltAt(Apply(cases, ObservationOf()), view)(t).counts
      == CountCategories(Apply(CasesIn(cases, view)(t), Metrics.CategoryOf()))
  {
    var d := GrainDimension(view)(t);
    var selected := CasesIn(cases, view)(t);
    GrainTemplate(view, t);
    ApplyFilter(cases, ObservationOf(), InCell(view, t), MatchesSlice(d));
    assert Apply(Apply(selected, ObservationOf()), Slices.CategoryOf) == Apply(selected, Metrics.CategoryOf());
  }

  lemma MetricIsShare(cases: seq<Scored>, k: Metric)
    ensures var m := MetricsFor(CountCategories(Apply(cases, Metrics.CategoryOf())));
      m.Some? && Share(RateOf(m.value, k), cases, Having(k), Among(k))
  {
    MetricsMeasure(cases);
    match k {
      case DecisiveCoverage =>
      case FalseCertaintyRisk =>
      case FalseCertaintyIncidence =>
      case AmbiguityFalseCertainty =>
      case AbstentionRate =>
      case ExactTargetFamily =>
      case ExactMinimalWitness =>
    }
  }

  function RateAt(observations: seq<Observation>, view: Option<ViewKind>, k: Metric): TemplateId -> Rate {
    (t: TemplateId) => SliceRate(k)(BuiltAt(observations, view)(t))
  }

  lemma CellShare(cases: seq<Scored>, view: Option<ViewKind>, k: Metric, t: TemplateId)
    ensures Share(
      RateAt(Apply(cases, ObservationOf()), view, k)(t), CasesIn(cases, view)(t), Having(k), Among(k))
  {
    CellCounts(cases, view, t);
    MetricIsShare(CasesIn(cases, view)(t), k);
  }

  lemma ShareCounts(rate: Rate, cases: seq<Scored>, of: Scored -> bool, among: Scored -> bool)
    requires Share(rate, cases, of, among)
    ensures rate.Valid() && rate.numerator == HowMany(cases, of) && rate.denominator == HowMany(cases, among)
  {
  }

  lemma TemplateRates(cases: seq<Scored>, view: Option<ViewKind>, k: Metric, t: TemplateId)
    ensures Rates(
      RateAt(Apply(cases, ObservationOf()), view, k), Counts(cases, view, k), ShareIn(cases, view, k), t)
  {
    CellShare(cases, view, k, t);
    ShareCounts(
      RateAt(Apply(cases, ObservationOf()), view, k)(t), CasesIn(cases, view)(t), Having(k), Among(k));
  }

  /** For any list of scored runs, each template macro exists and is the exact
      mean of the metric's shares in the templates where it counts anything. */
  lemma MacrosAreMeans(cases: seq<Scored>, view: Option<ViewKind>, k: Metric)
    ensures var macro := TemplateMacro(BuildSlices(Apply(cases, ObservationOf())), view, k);
      macro.Some? && IsMean(macro.value, TemplateShares(cases, view, k))
  {
    var observations := Apply(cases, ObservationOf());
    BuiltTemplateSlices(observations, view);
    var rate := RateAt(observations, view, k);
    assert Apply(Apply(TEMPLATE_ORDER, BuiltAt(observations, view)), SliceRate(k)) == Apply(TEMPLATE_ORDER, rate);
    forall t ensures Rates(rate, Counts(cases, view, k), ShareIn(cases, view, k), t) {
      TemplateRates(cases, view, k, t);
    }
    MacroOfShares(TEMPLATE_ORDER, rate, Counts(cases, view, k), ShareIn(cases, view, k));
  }

  // ---------- the macros of a claim set ----------

  /** `_observations_from_scored_runs`, for one run. */
  function ScoredObservation(r: ClaimScoring.ScoredRun): Observation {
    Observation(r.view, r.templateId, r.category, r.failure)
  }

  /** The cases of a truth with what a method answered on them. */
  function Answered(says: TruthCase -> RunOutcome): TruthCase -> Scored {
    (c: TruthCase) => Scored(says(c), c)
  }

  lemma RowObservations(
      f: ClaimScoring.Cell -> Option<ClaimScoring.ScoredRun>, digest: string, cases: seq<TruthCase>,
      row: seq<ClaimScoring.ScoredRun>, says: TruthCase -> RunOutcome)
    requires Answers(f, ClaimScoring.Row(cases)(digest), row)
    requires forall c :: c in cases ==> ClaimScoring.ScoredOn(f((digest, c)), (digest, c), says(c))
    ensures Apply(row, ScoredObservation) == Apply(Apply(cases, Answered(says)), ObservationOf())
  {
    forall k | 0 <= k < |cases| ensures ScoredObservation(row[k]) == ObservationOf()(Answered(says)(cases[k])) {
      assert ClaimScoring.Row(cases)(digest)[k] == (digest, cases[k]) && cases[k] in cases;
      assert f(ClaimScoring.Row(cases)(digest)[k]) == Some(row[k]);
    }
  }

  /** Evaluate, join, score and average: under every schedule the template
      macros of a method are the means of what its workers' answers deserve. */
  lemma MethodMacros(
      s: Setup, answer: RunKey -> RunOutcome, order: seq<RunKey>, cases: seq<TruthCase>, request: Evidence -> string,
      scored: seq<ClaimScoring.ScoredRun>, n: nat, says: TruthCase -> RunOutcome,
      view: Option<ViewKind>, k: Metric)
    requires s.Valid() && ValidOrder(s, order) && n < |s.methods|
    requires ClaimScoring.Runs(s, cases, request) && ClaimScoring.OneRegistry(cases)
    requires forall c :: c in cases ==> answer(RunKey(s.methods[n].methodId, c.digest)) == says(c)
    requires Answers(
      ClaimScoring.ScoreOf(Evaluated(s, answer, order).runs, request),
      ClaimScoring.Cells(Apply(s.methods, MethodDigest), cases), scored)
    ensures var own := Filter(scored, ClaimScoring.ByMethod(s.methods[n].digest));
      var macro := TemplateMacro(BuildSlices(Apply(own, ScoredObservation)), view, k);
      macro.Some? && IsMean(macro.value, TemplateShares(Apply(cases, Answered(says)), view, k))
  {
    var digests := Apply(s.methods, MethodDigest);
    ClaimScoring.RowIsScored(s, answer, order, cases, request, scored, n, says);
    RowObservations(
      ClaimScoring.ScoreOf(Evaluated(s, answer, order).runs, request), digests[n], cases,
      Filter(scored, ClaimScoring.ByMethod(digests[n])), says);
    MacrosAreMeans(Apply(cases, Answered(says)), view, k);
  }
}
