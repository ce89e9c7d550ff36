/** The nine-way score partition, its exact rates and the additive slice tables
    (src/witnessgap/workspace100/scoring.py:124-135, 422-561, 633-728). */
module Scores {
  import opened Model
  import opened Ratios

  datatype Category =
    | FailedAmbiguous
    | FailedIdentifiable
    | CorrectAbstention
    | WrongReasonAbstention
    | MissedIdentifiable
    | ExactDecisive
    | WrongWitness
    | WrongTarget
    | DecisiveOnAmbiguous

  datatype ScoreCounts = ScoreCounts(
    failedAmbiguous: nat,
    failedIdentifiable: nat,
    correctAbstention: nat,
    wrongReasonAbstention: nat,
    missedIdentifiable: nat,
    exactDecisive: nat,
    wrongWitness: nat,
    wrongTarget: nat,
    decisiveOnAmbiguous: nat)
  {
    function Of(c: Category): nat {
      match c
      case FailedAmbiguous => failedAmbiguous
      case FailedIdentifiable => failedIdentifiable
      case CorrectAbstention => correctAbstention
      case WrongReasonAbstention => wrongReasonAbstention
      case MissedIdentifiable => missedIdentifiable
      case ExactDecisive => exactDecisive
      case WrongWitness => wrongWitness
      case WrongTarget => wrongTarget
      case DecisiveOnAmbiguous => decisiveOnAmbiguous
    }

    function TotalCases(): nat {
      failedAmbiguous + failedIdentifiable + correctAbstention + wrongReasonAbstention + missedIdentifiable
      + exactDecisive + wrongWitness + wrongTarget + decisiveOnAmbiguous
    }

    function AmbiguousCases(): nat {
      failedAmbiguous + correctAbstention + wrongReasonAbstention + decisiveOnAmbiguous
    }

    function IdentifiableCases(): nat {
      failedIdentifiable + missedIdentifiable + exactDecisive + wrongWitness + wrongTarget
    }

    function DecisiveClaims(): nat {
      exactDecisive + wrongWitness + wrongTarget + decisiveOnAmbiguous
    }

    function FalseCertainClaims(): nat {
      wrongWitness + wrongTarget + decisiveOnAmbiguous
    }

    function FailedRuns(): nat {
      failedAmbiguous + failedIdentifiable
    }
  }

  function CountsOf(tally: map<Category, nat>): ScoreCounts
    requires forall c: Category :: c in tally
  {
    ScoreCounts(
      tally[FailedAmbiguous], tally[FailedIdentifiable], tally[CorrectAbstention], tally[WrongReasonAbstention],
      tally[MissedIdentifiable], tally[ExactDecisive], tally[WrongWitness], tally[WrongTarget],
      tally[DecisiveOnAmbiguous])
  }

  /** Every category is counted as often as it occurs. */
  ghost predicate Counts(counts: ScoreCounts, categories: seq<Category>) {
    forall c: Category :: counts.Of(c) == multiset(categories)[c]
  }

  const CATEGORIES: set<Category> := {
    FailedAmbiguous, FailedIdentifiable, CorrectAbstention, WrongReasonAbstention, MissedIdentifiable,
    ExactDecisive, WrongWitness, WrongTarget, DecisiveOnAmbiguous}

  lemma CategoryIsListed(c: Category)
    ensures c in CATEGORIES
  {
  }

  lemma CountsAreUnique(a: ScoreCounts, b: ScoreCounts)
    requires forall c: Category :: a.Of(c) == b.Of(c)
    ensures a == b
  {
    assert a.Of(FailedAmbiguous) == b.Of(FailedAmbiguous) && a.Of(FailedIdentifiable) == b.Of(FailedIdentifiable);
    assert a.Of(CorrectAbstention) == b.Of(CorrectAbstention);
    assert a.Of(WrongReasonAbstention) == b.Of(WrongReasonAbstention);
    assert a.Of(MissedIdentifiable) == b.Of(MissedIdentifiable) && a.Of(ExactDecisive) == b.Of(ExactDecisive);
    assert a.Of(WrongWitness) == b.Of(WrongWitness) && a.Of(WrongTarget) == b.Of(WrongTarget);
    assert a.Of(DecisiveOnAmbiguous) == b.Of(DecisiveOnAmbiguous);
  }

  /** The counts of a list of categories, as `FromCategories` computes them. */
  function CountCategories(categories: seq<Category>): (counts: ScoreCounts)
    ensures Counts(counts, categories)
  {
    ScoreCounts(
      multiset(categories)[FailedAmbiguous], multiset(categories)[FailedIdentifiable],
      multiset(categories)[CorrectAbstention], multiset(categories)[WrongReasonAbstention],
      multiset(categories)[MissedIdentifiable], multiset(categories)[ExactDecisive],
      multiset(categories)[WrongWitness], multiset(categories)[WrongTarget],
      multiset(categories)[DecisiveOnAmbiguous])
  }

  /** `Workspace100ScoreCounts.from_categories` */
  method FromCategories(categories: seq<Category>) returns (counts: ScoreCounts)
    ensures counts == CountCategories(categories)
  {
    var tally: map<Category, nat> := map c | c in CATEGORIES :: 0;
    forall c: Category ensures c in tally {
      CategoryIsListed(c);
    }
    for i := 0 to |categories|
      invariant forall c: Category :: c in tally && tally[c] == multiset(categories[..i])[c]
    {
      assert categories[..i + 1] == categories[..i] + [categories[i]];
      tally := tally[categories[i] := tally[categories[i]] + 1];
    }
    assert categories[..|categories|] == categories;
    counts := CountsOf(tally);
    CountsAreUnique(counts, CountCategories(categories));
  }

  /** One more case adds one to exactly one count. */
  lemma CountsStep(before: seq<Category>, last: Category)
    ensures forall c: Category ::
      CountCategories(before + [last]).Of(c) == CountCategories(before).Of(c) + if c == last then 1 else 0
  {
    assert multiset(before + [last]) == multiset(before) + multiset{last};
  }

  lemma OneCountGrows(a: ScoreCounts, b: ScoreCounts, last: Category)
    requires forall c: Category :: b.Of(c) == a.Of(c) + if c == last then 1 else 0
    ensures b.TotalCases() == a.TotalCases() + 1
    ensures b.AmbiguousCases() + b.IdentifiableCases() == b.TotalCases()
  {
    CountsReadBack(a);
    CountsReadBack(b);
  }

  lemma CountsReadBack(a: ScoreCounts)
    ensures a.TotalCases() == a.Of(FailedAmbiguous) + a.Of(FailedIdentifiable) + a.Of(CorrectAbstention)
      + a.Of(WrongReasonAbstention) + a.Of(MissedIdentifiable) + a.Of(ExactDecisive) + a.Of(WrongWitness)
      + a.Of(WrongTarget) + a.Of(DecisiveOnAmbiguous)
  {
  }

  /** The nine counts partition the cases. */
  lemma {:induction false} CountsPartition(categories: seq<Category>)
    ensures CountCategories(categories).TotalCases() == |categories|
  {
    if categories != [] {
      var before, last := categories[..|categories| - 1], categories[|categories| - 1];
      CountsPartition(before);
      assert categories == before + [last];
      CountsStep(before, last);
      OneCountGrows(CountCategories(before), CountCategories(categories), last);
    }
  }

  // ---------- metrics ----------

  datatype ScoreMetrics = ScoreMetrics(
    decisiveCoverage: Rate,
    falseCertaintyRisk: Rate,
    falseCertaintyIncidence: Rate,
    ambiguityFalseCertainty: Rate,
    correctAbstention: Rate,
    exactTargetFamily: Rate,
    exactMinimalWitness: Rate)

  /** `Workspace100ScoreMetrics.from_counts`; its rates may be refused. */
  function MetricsFor(c: ScoreCounts): Option<ScoreMetrics> {
    Assemble(
      FromCounts(c.DecisiveClaims(), c.TotalCases()),
      FromCounts(c.FalseCertainClaims(), c.DecisiveClaims()),
      FromCounts(c.FalseCertainClaims(), c.TotalCases()),
      FromCounts(c.decisiveOnAmbiguous, c.AmbiguousCases()),
      FromCounts(c.correctAbstention, c.AmbiguousCases()),
      FromCounts(c.exactDecisive + c.wrongWitness, c.IdentifiableCases()),
      FromCounts(c.exactDecisive, c.IdentifiableCases()))
  }

  function Assemble(
    coverage: Option<Rate>, risk: Option<Rate>, incidence: Option<Rate>, ambiguity: Option<Rate>,
    abstention: Option<Rate>, family: Option<Rate>, exact: Option<Rate>): Option<ScoreMetrics>
  {
    if coverage.None? || risk.None? || incidence.None? || ambiguity.None? || abstention.None?
       || family.None? || exact.None?
    then None
    else Some(ScoreMetrics(
      coverage.value, risk.value, incidence.value, ambiguity.value, abstention.value, family.value, exact.value))
  }

  lemma CountsGiveRate(n: nat, d: nat)
    requires n <= d
    ensures FromCounts(n, d).Some? && FromCounts(n, d).value.Valid()
    ensures d > 0 ==> RatioValue(FromCounts(n, d).value) == Value(n, d)
  {
    FromFractionIsCanonical(n, d);
    if d > 0 {
      var r := FromFraction(n, d).value;
      CrossValue(r.numerator, r.denominator, n, d);
    }
  }

  ghost function RatioValue(r: Rate): real {
    if r.ratio.Ratio? && r.ratio.denominator > 0 then Value(r.ratio.numerator, r.ratio.denominator) else 0.0
  }

  lemma Chain(f: nat, d: nat, t: nat)
    requires d > 0 && t > 0
    ensures Value(f, t) == Value(d, t) * Value(f, d)
  {
    var v := Value(f, d);
    assert f as real == v * d as real;
    assert d as real == Value(d, t) * t as real;
    assert f as real == (Value(d, t) * v) * t as real;
    QuotientIs(f as real, t as real, Value(d, t) * v);
  }

  lemma IncidenceFactors(coverage: Rate, risk: Rate, incidence: Rate, f: nat, d: nat, t: nat)
    requires f <= d <= t && d > 0
    requires FromCounts(d, t) == Some(coverage) && FromCounts(f, d) == Some(risk) && FromCounts(f, t) == Some(incidence)
    ensures RatioValue(incidence) == RatioValue(coverage) * RatioValue(risk)
  {
    CountsGiveRate(d, t);
    CountsGiveRate(f, d);
    CountsGiveRate(f, t);
    Chain(f, d, t);
  }

  ghost predicate ValidRate(r: Option<Rate>) {
    r.Some? && r.value.Valid()
  }

  lemma RateIsValid(n: nat, d: nat)
    requires n <= d
    ensures ValidRate(FromCounts(n, d))
  {
    CountsGiveRate(n, d);
  }

  ghost predicate AllValid(m: ScoreMetrics) {
    && m.decisiveCoverage.Valid() && m.falseCertaintyRisk.Valid() && m.falseCertaintyIncidence.Valid()
    && m.ambiguityFalseCertainty.Valid() && m.correctAbstention.Valid()
    && m.exactTargetFamily.Valid() && m.exactMinimalWitness.Valid()
  }

  lemma AssembleValid(
      coverage: Option<Rate>, risk: Option<Rate>, incidence: Option<Rate>, ambiguity: Option<Rate>,
      abstention: Option<Rate>, family: Option<Rate>, exact: Option<Rate>)
    requires ValidRate(coverage) && ValidRate(risk) && ValidRate(incidence) && ValidRate(ambiguity)
    requires ValidRate(abstention) && ValidRate(family) && ValidRate(exact)
    ensures var m := Assemble(coverage, risk, incidence, ambiguity, abstention, family, exact);
      m.Some? && AllValid(m.value)
  {
  }

  /** No count table can be refused its metrics: all seven rates are canonical. */
  lemma MetricsExist(c: ScoreCounts)
    ensures MetricsFor(c).Some? && AllValid(MetricsFor(c).value)
  {
    RateIsValid(c.DecisiveClaims(), c.TotalCases());
    RateIsValid(c.FalseCertainClaims(), c.DecisiveClaims());
    RateIsValid(c.FalseCertainClaims(), c.TotalCases());
    RateIsValid(c.decisiveOnAmbiguous, c.AmbiguousCases());
    RateIsValid(c.correctAbstention, c.AmbiguousCases());
    RateIsValid(c.exactDecisive + c.wrongWitness, c.IdentifiableCases());
    RateIsValid(c.exactDecisive, c.IdentifiableCases());
    AssembleValid(
      FromCounts(c.DecisiveClaims(), c.TotalCases()),
      FromCounts(c.FalseCertainClaims(), c.DecisiveClaims()),
      FromCounts(c.FalseCertainClaims(), c.TotalCases()),
      FromCounts(c.decisiveOnAmbiguous, c.AmbiguousCases()),
      FromCounts(c.correctAbstention, c.AmbiguousCases()),
      FromCounts(c.exactDecisive + c.wrongWitness, c.IdentifiableCases()),
      FromCounts(c.exactDecisive, c.IdentifiableCases()));
  }

  /** The three rates that share their counts. */
  ghost predicate KeepsRates(c: ScoreCounts, m: ScoreMetrics) {
    && FromCounts(c.DecisiveClaims(), c.TotalCases()) == Some(m.decisiveCoverage)
    && FromCounts(c.FalseCertainClaims(), c.DecisiveClaims()) == Some(m.falseCertaintyRisk)
    && FromCounts(c.FalseCertainClaims(), c.TotalCases()) == Some(m.falseCertaintyIncidence)
  }

  ghost predicate IncidenceFactored(m: ScoreMetrics) {
    RatioValue(m.falseCertaintyIncidence) == RatioValue(m.decisiveCoverage) * RatioValue(m.falseCertaintyRisk)
  }

  lemma MetricsKeepRates(c: ScoreCounts)
    requires MetricsFor(c).Some?
    ensures KeepsRates(c, MetricsFor(c).value)
  {
  }

  lemma KeptRatesFactor(c: ScoreCounts, m: ScoreMetrics)
    requires c.DecisiveClaims() > 0 && KeepsRates(c, m)
    ensures IncidenceFactored(m)
  {
    IncidenceFactors(
      m.decisiveCoverage, m.falseCertaintyRisk, m.falseCertaintyIncidence,
      c.FalseCertainClaims(), c.DecisiveClaims(), c.TotalCases());
  }

  /** Incidence is coverage times risk whenever any claim is decisive. */
  lemma IncidenceIsCoverageTimesRisk(c: ScoreCounts)
    requires c.DecisiveClaims() > 0
    ensures MetricsFor(c).Some? && IncidenceFactored(MetricsFor(c).value)
  {
    MetricsExist(c);
    MetricsKeepRates(c);
    KeptRatesFactor(c, MetricsFor(c).value);
  }
}
