/** What the seven score metrics measure, in terms of the runs and the truth
    alone (src/witnessgap/workspace100/scoring.py:483-561, 686-728, 1889-1932). */
module Metrics {
  import opened Model
  import opened Ratios
  import opened WorkerRun
  import opened Truth
  import opened Scores
  import opened Classifier

  datatype Scored = Scored(run: RunOutcome, truth: TruthCase)

  function CategoryOf(): Scored -> Category {
    (x: Scored) => Classify(x.run, x.truth)
  }

  function HowMany(cases: seq<Scored>, p: Scored -> bool): nat {
    |Filter(cases, p)|
  }

  // ---------- what can be said of a scored run without naming a category ----------

  function Every(): Scored -> bool { x => true }

  function Ambiguous(): Scored -> bool { (x: Scored) => TruthIsAmbiguous(x.truth) }

  function Identifiable(): Scored -> bool { (x: Scored) => !TruthIsAmbiguous(x.truth) }

  function Committed(): Scored -> bool { (x: Scored) => Commits(x.run) }

  function FalselyCertain(): Scored -> bool { (x: Scored) => Commits(x.run) && !StatesTruth(x.run, x.truth) }

  function CommittedThough(): Scored -> bool { (x: Scored) => TruthIsAmbiguous(x.truth) && Commits(x.run) }

  function RightlyAbstained(): Scored -> bool {
    (x: Scored) => TruthIsAmbiguous(x.truth) && StatesTruth(x.run, x.truth)
  }

  function FamilyNamed(): Scored -> bool { (x: Scored) => !TruthIsAmbiguous(x.truth) && NamesFamily(x.run, x.truth) }

  function TruthStated(): Scored -> bool { (x: Scored) => !TruthIsAmbiguous(x.truth) && StatesTruth(x.run, x.truth) }

  // ---------- the counts ----------

  /** The counts of each kind are the numbers of runs of that kind. */
  ghost predicate Measures(c: ScoreCounts, cases: seq<Scored>) {
    && c.TotalCases() == HowMany(cases, Every())
    && c.AmbiguousCases() == HowMany(cases, Ambiguous())
    && c.IdentifiableCases() == HowMany(cases, Identifiable())
    && c.DecisiveClaims() == HowMany(cases, Committed())
    && c.FalseCertainClaims() == HowMany(cases, FalselyCertain())
    && c.decisiveOnAmbiguous == HowMany(cases, CommittedThough())
    && c.correctAbstention == HowMany(cases, RightlyAbstained())
    && c.exactDecisive + c.wrongWitness == HowMany(cases, FamilyNamed())
    && c.exactDecisive == HowMany(cases, TruthStated())
  }

  /** One category adds to each derived count what its name says. */
  lemma DerivedCountsGrow(a: ScoreCounts, b: ScoreCounts, k: Category)
    requires forall c: Category :: b.Of(c) == a.Of(c) + if c == k then 1 else 0
    ensures b.TotalCases() == a.TotalCases() + 1
    ensures b.AmbiguousCases() == a.AmbiguousCases() + if OnAmbiguous(k) then 1 else 0
    ensures b.IdentifiableCases() == a.IdentifiableCases() + if OnAmbiguous(k) then 0 else 1
    ensures b.DecisiveClaims() == a.DecisiveClaims() + if Decisive(k) then 1 else 0
    ensures b.FalseCertainClaims() == a.FalseCertainClaims() + if Decisive(k) && k != ExactDecisive then 1 else 0
    ensures b.decisiveOnAmbiguous == a.decisiveOnAmbiguous + if k == DecisiveOnAmbiguous then 1 else 0
    ensures b.correctAbstention == a.correctAbstention + if k == CorrectAbstention then 1 else 0
    ensures b.exactDecisive == a.exactDecisive + if k == ExactDecisive then 1 else 0
    ensures b.exactDecisive + b.wrongWitness
      == a.exactDecisive + a.wrongWitness + if k == ExactDecisive || k == WrongWitness then 1 else 0
  {
    assert b.Of(FailedAmbiguous) == a.Of(FailedAmbiguous) + if FailedAmbiguous == k then 1 else 0;
    assert b.Of(FailedIdentifiable) == a.Of(FailedIdentifiable) + if FailedIdentifiable == k then 1 else 0;
    assert b.Of(CorrectAbstention) == a.Of(CorrectAbstention) + if CorrectAbstention == k then 1 else 0;
    assert b.Of(WrongReasonAbstention) == a.Of(WrongReasonAbstention) + if WrongReasonAbstention == k then 1 else 0;
    assert b.Of(MissedIdentifiable) == a.Of(MissedIdentifiable) + if MissedIdentifiable == k then 1 else 0;
    assert b.Of(ExactDecisive) == a.Of(ExactDecisive) + if ExactDecisive == k then 1 else 0;
    assert b.Of(WrongWitness) == a.Of(WrongWitness) + if WrongWitness == k then 1 else 0;
    assert b.Of(WrongTarget) == a.Of(WrongTarget) + if WrongTarget == k then 1 else 0;
    assert b.Of(DecisiveOnAmbiguous) == a.Of(DecisiveOnAmbiguous) + if DecisiveOnAmbiguous == k then 1 else 0;
  }

  lemma HowManyMore(cases: seq<Scored>, x: Scored, p: Scored -> bool)
    ensures HowMany(cases + [x], p) == HowMany(cases, p) + if p(x) then 1 else 0
  {
    FilterAppend(cases, [x], p);
    assert Filter([x], p) == if p(x) then [x] else [];
  }

  lemma HowManyOfEach(cases: seq<Scored>, x: Scored)
    ensures HowMany(cases + [x], Every()) == HowMany(cases, Every()) + 1
    ensures HowMany(cases + [x], Ambiguous()) == HowMany(cases, Ambiguous()) + if Ambiguous()(x) then 1 else 0
    ensures HowMany(cases + [x], Identifiable()) == HowMany(cases, Identifiable()) + if Identifiable()(x) then 1 else 0
    ensures HowMany(cases + [x], Committed()) == HowMany(cases, Committed()) + if Committed()(x) then 1 else 0
    ensures HowMany(cases + [x], FalselyCertain())
      == HowMany(cases, FalselyCertain()) + if FalselyCertain()(x) then 1 else 0
    ensures HowMany(cases + [x], CommittedThough())
      == HowMany(cases, CommittedThough()) + if CommittedThough()(x) then 1 else 0
    ensures HowMany(cases + [x], RightlyAbstained())
      == HowMany(cases, RightlyAbstained()) + if RightlyAbstained()(x) then 1 else 0
    ensures HowMany(cases + [x], FamilyNamed()) == HowMany(cases, FamilyNamed()) + if FamilyNamed()(x) then 1 else 0
    ensures HowMany(cases + [x], TruthStated()) == HowMany(cases, TruthStated()) + if TruthStated()(x) then 1 else 0
  {
    HowManyMore(cases, x, Every());
    HowManyMore(cases, x, Ambiguous());
    HowManyMore(cases, x, Identifiable());
    HowManyMore(cases, x, Committed());
    HowManyMore(cases, x, FalselyCertain());
    HowManyMore(cases, x, CommittedThough());
    HowManyMore(cases, x, RightlyAbstained());
    HowManyMore(cases, x, FamilyNamed());
    HowManyMore(cases, x, TruthStated());
  }

  lemma NothingMeasured()
    ensures Measures(CountCategories([]), [])
  {
    assert forall c: Category :: CountCategories([]).Of(c) == 0;
    CountsReadBack(CountCategories([]));
  }

  /** Counting categories counts the runs that the categories describe. */
  lemma {:induction false} CountsMeasure(cases: seq<Scored>, categories: seq<Category>)
    requires categories == Apply(cases, CategoryOf())
    ensures Measures(CountCategories(categories), cases)
  {
    if cases == [] {
      NothingMeasured();
    } else {
      var n := |cases| - 1;
      CountsMeasure(cases[..n], categories[..n]);
      MeasuresNext(cases[..n], categories[..n], cases[n]);
      Rejoined(cases, n);
      Rejoined(categories, n);
    }
  }

  lemma Rejoined<T>(s: seq<T>, n: nat)
    requires |s| == n + 1
    ensures s[..n] + [s[n]] == s
  {
  }

  lemma MeasuresNext(before: seq<Scored>, categories: seq<Category>, last: Scored)
    requires Measures(CountCategories(categories), before)
    ensures Measures(CountCategories(categories + [Classify(last.run, last.truth)]), before + [last])
  {
    var k := Classify(last.run, last.truth);
    CountsStep(categories, k);
    MeasuresGrow(CountCategories(categories), CountCategories(categories + [k]), before, last);
  }

  lemma MeasuresGrow(a: ScoreCounts, b: ScoreCounts, before: seq<Scored>, last: Scored)
    requires Measures(a, before)
    requires forall c: Category :: b.Of(c) == a.Of(c) + if c == Classify(last.run, last.truth) then 1 else 0
    ensures Measures(b, before + [last])
  {
    DerivedCountsGrow(a, b, Classify(last.run, last.truth));
    HowManyOfEach(before, last);
    CategoriesMean(last.run, last.truth);
  }

  // ---------- the rates ----------

  /** The exact share of the runs with `among` that also have `of`. */
  ghost predicate Share(rate: Rate, cases: seq<Scored>, of: Scored -> bool, among: Scored -> bool) {
    && rate.Valid()
    && rate.numerator == HowMany(cases, of) && rate.denominator == HowMany(cases, among)
  }

  /** Every metric is the exact share that its name announces. */
  lemma MetricsMeasure(cases: seq<Scored>)
    ensures var m := MetricsFor(CountCategories(Apply(cases, CategoryOf())));
      && m.Some?
      && Share(m.value.decisiveCoverage, cases, Committed(), Every())
      && Share(m.value.falseCertaintyRisk, cases, FalselyCertain(), Committed())
      && Share(m.value.falseCertaintyIncidence, cases, FalselyCertain(), Every())
      && Share(m.value.ambiguityFalseCertainty, cases, CommittedThough(), Ambiguous())
      && Share(m.value.correctAbstention, cases, RightlyAbstained(), Ambiguous())
      && Share(m.value.exactTargetFamily, cases, FamilyNamed(), Identifiable())
      && Share(m.value.exactMinimalWitness, cases, TruthStated(), Identifiable())
  {
    var c := CountCategories(Apply(cases, CategoryOf()));
    CountsMeasure(cases, Apply(cases, CategoryOf()));
    MetricsExist(c);
    MetricsKeepCounts(c);
  }

  ghost predicate Of(rate: Rate, numerator: nat, denominator: nat) {
    rate.numerator == numerator && rate.denominator == denominator
  }

  lemma MetricsKeepCounts(c: ScoreCounts)
    requires MetricsFor(c).Some?
    ensures var m := MetricsFor(c).value;
      && Of(m.decisiveCoverage, c.DecisiveClaims(), c.TotalCases())
      && Of(m.falseCertaintyRisk, c.FalseCertainClaims(), c.DecisiveClaims())
      && Of(m.falseCertaintyIncidence, c.FalseCertainClaims(), c.TotalCases())
      && Of(m.ambiguityFalseCertainty, c.decisiveOnAmbiguous, c.AmbiguousCases())
      && Of(m.correctAbstention, c.correctAbstention, c.AmbiguousCases())
      && Of(m.exactTargetFamily, c.exactDecisive + c.wrongWitness, c.IdentifiableCases())
      && Of(m.exactMinimalWitness, c.exactDecisive, c.IdentifiableCases())
  {
  }
}
