/** The four built-in baselines, scored on any number of twin pairs
    (src/witnessgap/workspace100/baselines.py:899-914 composed with
    src/witnessgap/workspace100/scoring.py:1889-1932). */
module Baselines {
  import opened Model
  import opened Order
  import opened Attribution
  import opened WorkerRun
  import opened Records
  import opened Runtime
  import opened Views
  import opened Projection
  import opened Truth
  import opened Verdicts
  import opened Authoring
  import opened Permutations
  import opened TruthSet
  import opened Denominators
  import opened Scores
  import opened Slices
  import opened Classifier

  datatype Baseline = AlwaysUnknown | ForcedEnvironment | RefreshOutcome | RefreshSuccessOnly

  /** The atoms that a request's own action tool identifies. */
  datatype Vocabulary = Vocabulary(lookupTool: string, epochProbe: string, refreshAtom: string, repairAtom: string)

  function UnknownClaim(): ParticipantClaim {
    ParticipantClaim(NotIdentifiable, None, None, Some(AmbiguousWorlds))
  }

  function IdentifiedClaim(target: string, atom: string): ParticipantClaim {
    ParticipantClaim(IdentifiedSingleton, Some([[target]]), Some([[atom]]), None)
  }

  /** The one observation that `parse_request` passes on. */
  function ObservationIn(e: Evidence): Option<InterventionObservation> {
    if e.interventions == [] then None else Some(e.interventions[0])
  }

  /** `predict` */
  function Predict(
    baseline: Baseline, vocabulary: Vocabulary, observation: Option<InterventionObservation>): ParticipantClaim
  {
    if baseline == AlwaysUnknown then UnknownClaim()
    else if baseline == ForcedEnvironment then IdentifiedClaim(ENVIRONMENT, vocabulary.refreshAtom)
    else if observation.None? then UnknownClaim()
    else if observation.value.outcome == Success then IdentifiedClaim(ENVIRONMENT, vocabulary.refreshAtom)
    else if baseline == RefreshOutcome then IdentifiedClaim(POLICY, vocabulary.repairAtom)
    else UnknownClaim()
  }

  function VocabularyOf(t: TemplateRecord): Vocabulary {
    Vocabulary(t.lookupTool, t.epochProbe, t.refreshAtom, t.repairAtom)
  }

  /** The recorded run of a baseline on one case. */
  function BaselineRun(baseline: Baseline, t: TemplateRecord, c: TruthCase): RunOutcome {
    Claimed(Predict(baseline, VocabularyOf(t), ObservationIn(c.publicCase.evidence)))
  }

  function BaselineCategory(baseline: Baseline, t: TemplateRecord): TruthCase -> Category {
    (c: TruthCase) => Classify(BaselineRun(baseline, t, c), c)
  }

  // ---------- one case ----------

  /** What a baseline earns on one view of a twin, by the twin's own target. */
  function Expected(baseline: Baseline, view: ViewKind, environment: bool): Category {
    match baseline
    case AlwaysUnknown => if Neutral(view) then CorrectAbstention else MissedIdentifiable
    case ForcedEnvironment =>
      if Neutral(view) then DecisiveOnAmbiguous else if environment then ExactDecisive else WrongTarget
    case RefreshOutcome =>
      if Neutral(view) then CorrectAbstention
      else if view == EpochProbe then MissedIdentifiable else ExactDecisive
    case RefreshSuccessOnly =>
      if Neutral(view) then CorrectAbstention
      else if view == RefreshReceipt && environment then ExactDecisive else MissedIdentifiable
  }

  /** The facts about one twin that scoring depends on. */
  ghost predicate SideScores(m: PairMaterial, t: TemplateRecord, left: bool, view: ViewKind, c: TruthCase) {
    var side := SideOf(m, left);
    var environment := side.panel.targetFamily == ENVIRONMENT_FAMILY;
    && (side.panel.targetFamily == ENVIRONMENT_FAMILY || side.panel.targetFamily == POLICY_FAMILY)
    && side.panel.minimalWitnesses == [[if environment then t.refreshAtom else t.repairAtom]]
    && (ObservationIn(c.publicCase.evidence).Some? <==> view == RefreshReceipt)
    && (view == RefreshReceipt ==>
          ObservationIn(c.publicCase.evidence).value.outcome == if environment then Success else Failure)
    && EarnedBy(m, left, view, c.certificate)
    && c.minimalWitnesses == if Neutral(view) then None else Some(side.panel.minimalWitnesses)
  }

  lemma ScoreIsExpected(
      baseline: Baseline, m: PairMaterial, t: TemplateRecord, left: bool, view: ViewKind, c: TruthCase)
    requires SideScores(m, t, left, view, c)
    ensures BaselineCategory(baseline, t)(c)
      == Expected(baseline, view, SideOf(m, left).panel.targetFamily == ENVIRONMENT_FAMILY)
  {
    TargetsDiffer();
  }

  lemma ShownObservation(m: PairMaterial, t: TemplateRecord, c: VerifiedCompletion, view: ViewKind, e: Evidence)
    requires Shown(m, t, c, view, e)
    ensures ObservationIn(e).Some? <==> view == RefreshReceipt
    ensures view == RefreshReceipt ==> Some(ObservationIn(e).value.outcome) == c.OutcomeOf([t.refreshAtom])
  {
  }

  lemma SideFacts(m: PairMaterial, t: TemplateRecord, left: bool)
    requires TwinFacts(m, t)
    ensures var side := SideOf(m, left);
      var environment := side.panel.targetFamily == ENVIRONMENT_FAMILY;
      && (side.panel.targetFamily == ENVIRONMENT_FAMILY || side.panel.targetFamily == POLICY_FAMILY)
      && side.panel.minimalWitnesses == [[if environment then t.refreshAtom else t.repairAtom]]
      && side.OutcomeOf([t.refreshAtom]) == Some(if environment then Success else Failure)
  {
    SideTarget(m, left);
    assert ValidTwinSide(SideOf(m, left), t.refreshAtom, t.repairAtom);
  }

  lemma TruthfulEvidence(m: PairMaterial, protocol: Protocol, s: Slot, c: TruthCase)
    requires Truthful(protocol, m, s, c)
    ensures c.publicCase.evidence == Shots(m)(s.0, s.1) && EarnedBy(m, s.0, s.1, c.certificate)
  {
    var shown := Shots(m);
    assert SlotCase(m)(s) == ShotBinding(m, shown, s.0)(s.1).publicCase;
    assert ShotBinding(m, shown, s.0)(s.1).publicCase.evidence == shown(s.0, s.1);
  }

  lemma ShownScores(m: PairMaterial, t: TemplateRecord, s: Slot, c: TruthCase, e: Evidence)
    requires TwinFacts(m, t) && Shown(m, t, SideOf(m, s.0), s.1, e) && c.publicCase.evidence == e
    requires EarnedBy(m, s.0, s.1, c.certificate)
    requires c.minimalWitnesses == if Neutral(s.1) then None else Some(SideOf(m, s.0).panel.minimalWitnesses)
    ensures SideScores(m, t, s.0, s.1, c)
  {
    ShownObservation(m, t, SideOf(m, s.0), s.1, e);
    SideFacts(m, t, s.0);
  }

  lemma TruthfulScores(m: PairMaterial, t: TemplateRecord, protocol: Protocol, s: Slot, c: TruthCase)
    requires TwinFacts(m, t) && AtomForTarget(m.manifest.atoms, POLICY) == Some(t.repairAtom)
    requires Truthful(protocol, m, s, c)
    ensures SideScores(m, t, s.0, s.1, c)
  {
    ShotIsShown(m, t, s.0, s.1);
    TruthfulEvidence(m, protocol, s, c);
    TruthfulWitnesses(m, t, protocol, s, c);
    ShownScores(m, t, s, c, Shots(m)(s.0, s.1));
  }

  /** The checks on a truth case leave no choice of minimal witnesses. */
  lemma TruthfulWitnesses(m: PairMaterial, t: TemplateRecord, protocol: Protocol, s: Slot, c: TruthCase)
    requires TwinFacts(m, t) && AtomForTarget(m.manifest.atoms, POLICY) == Some(t.repairAtom)
    requires Truthful(protocol, m, s, c)
    ensures c.minimalWitnesses == if Neutral(s.1) then None else Some(SideOf(m, s.0).panel.minimalWitnesses)
  {
    WitnessMatchesTarget(m, t, s.0);
  }

  /** The claim names this target family and these minimal repairs. */
  predicate NamesCause(run: RunOutcome, family: TargetFamily, repairs: seq<Witness>) {
    Commits(run) && run.claim.targetFamily == Some(family) && run.claim.minimalWitnesses == Some(repairs)
  }

  predicate Abstains(run: RunOutcome) {
    run.Claimed? && run.claim.kind == NotIdentifiable && run.claim.unknownReason == Some(AmbiguousWorlds)
  }

  /** Full marks go to exactly the claims that name the family and the repairs,
      or abstain where the view is neutral. */
  predicate FullMarks(k: Category, view: ViewKind, run: RunOutcome, family: TargetFamily, repairs: seq<Witness>) {
    && (k == ExactDecisive <==> !Neutral(view) && NamesCause(run, family, repairs))
    && (k == CorrectAbstention <==> Neutral(view) && Abstains(run))
  }

  lemma EarnedMarks(m: PairMaterial, s: Slot, c: TruthCase, run: RunOutcome)
    requires EarnedBy(m, s.0, s.1, c.certificate)
    requires c.minimalWitnesses == if Neutral(s.1) then None else Some(SideOf(m, s.0).panel.minimalWitnesses)
    ensures var panel := SideOf(m, s.0).panel;
      FullMarks(Classify(run, c), s.1, run, panel.targetFamily, panel.minimalWitnesses)
  {
  }

  /** A truthful case grades by the repairs of the completion that its view shows. */
  lemma ScoresFollowPanels(
      m: PairMaterial, t: TemplateRecord, protocol: Protocol, s: Slot, c: TruthCase, run: RunOutcome)
    requires TwinFacts(m, t) && AtomForTarget(m.manifest.atoms, POLICY) == Some(t.repairAtom)
    requires Truthful(protocol, m, s, c)
    ensures var panel := SideOf(m, s.0).panel;
      FullMarks(Classify(run, c), s.1, run, panel.targetFamily, panel.minimalWitnesses)
  {
    TruthfulEvidence(m, protocol, s, c);
    TruthfulWitnesses(m, t, protocol, s, c);
    EarnedMarks(m, s, c, run);
  }

  // ---------- one pair, any number of pairs ----------

  /** The counts of one pair; which twin is which does not matter. */
  function PairCounts(baseline: Baseline): ScoreCounts {
    match baseline
    case AlwaysUnknown => ScoreCounts(0, 0, 2, 0, 4, 0, 0, 0, 0)
    case ForcedEnvironment => ScoreCounts(0, 0, 0, 0, 0, 2, 0, 2, 2)
    case RefreshOutcome => ScoreCounts(0, 0, 2, 0, 2, 2, 0, 0, 0)
    case RefreshSuccessOnly => ScoreCounts(0, 0, 2, 0, 3, 1, 0, 0, 0)
  }

  function SlotCategory(baseline: Baseline, leftIsEnvironment: bool): Slot -> Category {
    (s: Slot) => Expected(baseline, s.1, s.0 == leftIsEnvironment)
  }

  lemma SixCategories(f: Slot -> Category)
    ensures Apply(SIX_SLOTS, f) == [f((true, TraceOnly))] + ([f((true, OwnerProbe))] + ([f((true, EpochProbe))]
      + ([f((true, RefreshReceipt))] + ([f((false, EpochProbe))] + ([f((false, RefreshReceipt))] + [])))))
  {
  }

  function Hit(a: Category, k: Category): nat {
    if a == k then 1 else 0
  }

  function HitsIn(categories: seq<Category>, k: Category): nat {
    if categories == [] then 0 else Hit(categories[0], k) + HitsIn(categories[1..], k)
  }

  lemma {:induction false} HitsAreCounts(categories: seq<Category>, k: Category)
    ensures CountCategories(categories).Of(k) == HitsIn(categories, k)
  {
    CountedCategories(categories, k);
    if categories != [] {
      assert categories == [categories[0]] + categories[1..];
      assert multiset(categories) == multiset{categories[0]} + multiset(categories[1..]);
      HitsAreCounts(categories[1..], k);
      CountedCategories(categories[1..], k);
    }
  }

  lemma HitsCons(a: Category, rest: seq<Category>, k: Category)
    ensures HitsIn([a] + rest, k) == Hit(a, k) + HitsIn(rest, k)
  {
    assert ([a] + rest)[1..] == rest;
  }

  lemma SixHits(a: Category, b: Category, c: Category, d: Category, e: Category, f: Category, k: Category)
    ensures HitsIn([a] + ([b] + ([c] + ([d] + ([e] + ([f] + []))))), k)
      == Hit(a, k) + Hit(b, k) + Hit(c, k) + Hit(d, k) + Hit(e, k) + Hit(f, k)
  {
    HitsCons(f, [], k);
    HitsCons(e, [f] + [], k);
    HitsCons(d, [e] + ([f] + []), k);
    HitsCons(c, [d] + ([e] + ([f] + [])), k);
    HitsCons(b, [c] + ([d] + ([e] + ([f] + []))), k);
    HitsCons(a, [b] + ([c] + ([d] + ([e] + ([f] + [])))), k);
  }

  lemma ExpectedHits(baseline: Baseline, l: bool, k: Category)
    ensures Hit(Expected(baseline, TraceOnly, l), k) + Hit(Expected(baseline, OwnerProbe, l), k)
      + Hit(Expected(baseline, EpochProbe, l), k) + Hit(Expected(baseline, RefreshReceipt, l), k)
      + Hit(Expected(baseline, EpochProbe, !l), k) + Hit(Expected(baseline, RefreshReceipt, !l), k)
      == PairCounts(baseline).Of(k)
  {
  }

  lemma PairCountOf(baseline: Baseline, leftIsEnvironment: bool, k: Category)
    ensures HitsIn(Apply(SIX_SLOTS, SlotCategory(baseline, leftIsEnvironment)), k) == PairCounts(baseline).Of(k)
  {
    var f := SlotCategory(baseline, leftIsEnvironment);
    SixCategories(f);
    SixHits(f((true, TraceOnly)), f((true, OwnerProbe)), f((true, EpochProbe)), f((true, RefreshReceipt)),
            f((false, EpochProbe)), f((false, RefreshReceipt)), k);
    ExpectedHits(baseline, leftIsEnvironment, k);
  }

  lemma PairCountsAre(baseline: Baseline, leftIsEnvironment: bool)
    ensures CountCategories(Apply(SIX_SLOTS, SlotCategory(baseline, leftIsEnvironment))) == PairCounts(baseline)
  {
    var counts := CountCategories(Apply(SIX_SLOTS, SlotCategory(baseline, leftIsEnvironment)));
    forall k: Category ensures counts.Of(k) == PairCounts(baseline).Of(k) {
      PairCountOf(baseline, leftIsEnvironment, k);
      HitsAreCounts(Apply(SIX_SLOTS, SlotCategory(baseline, leftIsEnvironment)), k);
    }
    CountsAreUnique(counts, PairCounts(baseline));
  }

  /** A pair of truthful cases scores each baseline exactly so. */
  lemma PairScores(
      baseline: Baseline, m: PairMaterial, t: TemplateRecord, protocol: Protocol, truths: seq<TruthCase>)
    requires TwinFacts(m, t) && AtomForTarget(m.manifest.atoms, POLICY) == Some(t.repairAtom)
    requires AllTruthful(protocol, m, truths)
    ensures CountCategories(Apply(truths, BaselineCategory(baseline, t))) == PairCounts(baseline)
  {
    var leftIsEnvironment := m.left.panel.targetFamily == ENVIRONMENT_FAMILY;
    var scored := Apply(truths, BaselineCategory(baseline, t));
    var expected := Apply(SIX_SLOTS, SlotCategory(baseline, leftIsEnvironment));
    forall k | 0 <= k < 6 ensures scored[k] == expected[k] {
      SlotScores(baseline, m, t, protocol, SIX_SLOTS[k], truths[k]);
    }
    assert scored == expected;
    PairCountsAre(baseline, leftIsEnvironment);
  }

  lemma SlotScores(baseline: Baseline, m: PairMaterial, t: TemplateRecord, protocol: Protocol, s: Slot, c: TruthCase)
    requires TwinFacts(m, t) && AtomForTarget(m.manifest.atoms, POLICY) == Some(t.repairAtom)
    requires Truthful(protocol, m, s, c)
    ensures BaselineCategory(baseline, t)(c)
      == SlotCategory(baseline, m.left.panel.targetFamily == ENVIRONMENT_FAMILY)(s)
  {
    TruthfulScores(m, t, protocol, s, c);
    ScoreIsExpected(baseline, m, t, s.0, s.1, c);
    OppositeTargets(m);
    TargetsDiffer();
    SideTarget(m, true);
  }

  function Times(n: nat, a: nat): nat {
    n * a
  }

  function Scaled(c: ScoreCounts, n: nat): ScoreCounts {
    ScoreCounts(
      Times(n, c.failedAmbiguous), Times(n, c.failedIdentifiable), Times(n, c.correctAbstention),
      Times(n, c.wrongReasonAbstention), Times(n, c.missedIdentifiable), Times(n, c.exactDecisive),
      Times(n, c.wrongWitness), Times(n, c.wrongTarget), Times(n, c.decisiveOnAmbiguous))
  }

  function Plus(a: ScoreCounts, b: ScoreCounts): ScoreCounts {
    ScoreCounts(
      a.failedAmbiguous + b.failedAmbiguous, a.failedIdentifiable + b.failedIdentifiable,
      a.correctAbstention + b.correctAbstention, a.wrongReasonAbstention + b.wrongReasonAbstention,
      a.missedIdentifiable + b.missedIdentifiable, a.exactDecisive + b.exactDecisive,
      a.wrongWitness + b.wrongWitness, a.wrongTarget + b.wrongTarget,
      a.decisiveOnAmbiguous + b.decisiveOnAmbiguous)
  }

  lemma CountsOfConcatenation(a: seq<Category>, b: seq<Category>)
    ensures CountCategories(a + b) == Plus(CountCategories(a), CountCategories(b))
  {
    assert multiset(a + b) == multiset(a) + multiset(b);
  }

  lemma TimesStep(n: nat, a: nat)
    requires n > 0
    ensures Times(n, a) == Times(n - 1, a) + a
  {
  }

  lemma ScaledStep(c: ScoreCounts, n: nat)
    requires n > 0
    ensures Scaled(c, n) == Plus(Scaled(c, n - 1), c)
  {
    TimesStep(n, c.failedAmbiguous);
    TimesStep(n, c.failedIdentifiable);
    TimesStep(n, c.correctAbstention);
    TimesStep(n, c.wrongReasonAbstention);
    TimesStep(n, c.missedIdentifiable);
    TimesStep(n, c.exactDecisive);
    TimesStep(n, c.wrongWitness);
    TimesStep(n, c.wrongTarget);
    TimesStep(n, c.decisiveOnAmbiguous);
  }

  /** What a baseline earns on a case, whose template says which tools are named. */
  function GradeOf(baseline: Baseline, protocol: Protocol): TruthCase -> Category {
    (c: TruthCase) => BaselineCategory(baseline, protocol.templates(c.publicCase.templateId))(c)
  }

  function PairGrades(baseline: Baseline, protocol: Protocol): PairMaterial -> seq<Category> {
    (m: PairMaterial) => Apply(PairTruths(protocol)(m), BaselineCategory(baseline, protocol.templates(m.templateId)))
  }

  lemma {:induction false} TotalsScale<S>(s: seq<S>, part: S -> seq<Category>, each: ScoreCounts)
    requires forall x :: x in s ==> CountCategories(part(x)) == each
    ensures CountCategories(Flat(s, part)) == Scaled(each, |s|)
  {
    if s == [] {
      assert Scaled(each, 0) == ScoreCounts(0, 0, 0, 0, 0, 0, 0, 0, 0);
    } else {
      var before, last := s[..|s| - 1], s[|s| - 1];
      TotalsScale(before, part, each);
      CountsOfConcatenation(Flat(before, part), part(last));
      ScaledStep(each, |s|);
    }
  }

  lemma PairGradesAre(baseline: Baseline, protocol: Protocol, m: PairMaterial)
    ensures Apply(PairTruths(protocol)(m), GradeOf(baseline, protocol)) == PairGrades(baseline, protocol)(m)
  {
    var f := TruthAt(protocol, m);
    forall k | 0 <= k < |SIX_SLOTS| ensures f(SIX_SLOTS[k]).publicCase.templateId == m.templateId {
      TruthSays(protocol, m, SIX_SLOTS[k]);
    }
  }

  lemma PairIsScored(baseline: Baseline, protocol: Protocol, ms: seq<PairMaterial>, m: PairMaterial)
    requires SoundMaterials(protocol, ms) && m in ms
    ensures CountCategories(PairGrades(baseline, protocol)(m)) == PairCounts(baseline)
  {
    var i :| 0 <= i < |ms| && ms[i] == m;
    var t := protocol.templates(m.templateId);
    assert SoundTwins(ms[i], t);
    PairTruthsAreSound(protocol, m, t);
    PairScores(baseline, m, t, protocol, PairTruths(protocol)(m));
  }

  lemma GradesByPair(baseline: Baseline, protocol: Protocol, ms: seq<PairMaterial>)
    ensures multiset(Apply(TruthFor(protocol, ms).cases, GradeOf(baseline, protocol)))
      == multiset(Flat(ms, PairGrades(baseline, protocol)))
  {
    var truths, f := Flat(ms, PairTruths(protocol)), GradeOf(baseline, protocol);
    ApplyPermutation(Sort(ByKey(TruthKey), truths), truths, f);
    forall m | m in ms ensures Apply(PairTruths(protocol)(m), f) == PairGrades(baseline, protocol)(m) {
      PairGradesAre(baseline, protocol, m);
    }
    ApplyFlat(ms, PairTruths(protocol), f, PairGrades(baseline, protocol));
  }

  /** Over the truth of any number of pairs the score of every baseline is that
      many times the score of one pair. */
  lemma BaselinesScaleLinearly(baseline: Baseline, protocol: Protocol, ms: seq<PairMaterial>)
    requires SoundMaterials(protocol, ms)
    ensures CountCategories(Apply(TruthFor(protocol, ms).cases, GradeOf(baseline, protocol)))
      == Scaled(PairCounts(baseline), |ms|)
  {
    GradesByPair(baseline, protocol, ms);
    forall m | m in ms ensures CountCategories(PairGrades(baseline, protocol)(m)) == PairCounts(baseline) {
      PairIsScored(baseline, protocol, ms, m);
    }
    TotalsScale(ms, PairGrades(baseline, protocol), PairCounts(baseline));
  }

  lemma ScaledTotals(c: ScoreCounts, n: nat)
    ensures Scaled(c, n).TotalCases() == Times(n, c.TotalCases())
    ensures Scaled(c, n).FailedRuns() == Times(n, c.FailedRuns())
    ensures Scaled(c, n).FalseCertainClaims() == Times(n, c.FalseCertainClaims())
  {
    if n > 0 {
      ScaledTotals(c, n - 1);
      ScaledStep(c, n);
      TimesStep(n, c.TotalCases());
      TimesStep(n, c.FailedRuns());
      TimesStep(n, c.FalseCertainClaims());
    }
  }

  ghost predicate FalseCertainty(baseline: Baseline, c: ScoreCounts, pairs: nat) {
    && c.TotalCases() == Times(pairs, 6) && c.FailedRuns() == 0
    && c.FalseCertainClaims() == if baseline == ForcedEnvironment then Times(pairs, 4) else 0
  }

  lemma ScaledFalseCertainty(baseline: Baseline, pairs: nat)
    ensures FalseCertainty(baseline, Scaled(PairCounts(baseline), pairs), pairs)
  {
    ScaledTotals(PairCounts(baseline), pairs);
  }

  /** Abstaining unless the receipt decides is never falsely certain; forcing a
      target is falsely certain on two thirds of the cases. */
  lemma FalseCertaintyOfBaselines(baseline: Baseline, protocol: Protocol, ms: seq<PairMaterial>)
    requires SoundMaterials(protocol, ms)
    ensures FalseCertainty(
      baseline, CountCategories(Apply(TruthFor(protocol, ms).cases, GradeOf(baseline, protocol))), |ms|)
  {
    BaselinesScaleLinearly(baseline, protocol, ms);
    ScaledFalseCertainty(baseline, |ms|);
  }
}
