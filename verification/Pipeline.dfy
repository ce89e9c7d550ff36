/** The whole construction for any catalogue: from authored variants to public
    evidence views and private truth (src/witnessgap/workspace100/views.py:567-676,
    truth.py:345-415). */
module Pipeline {
  import opened Model
  import opened Order
  import opened Permutations
  import opened Attribution
  import opened Records
  import opened Runtime
  import opened Views
  import opened Twins
  import opened Materials
  import opened Projection
  import opened Projector
  import opened Routes
  import opened Truth
  import opened TruthSet
  import opened Denominators
  import opened ViewCounts
  import opened Corpora
  import opened TruthBuilder
  import opened Scores
  import opened Classifier
  import opened WorkerRun
  import opened Baselines
  import opened Claims
  import opened ClaimScoring

  // ---------- verified materials ----------

  method BuildMaterial(protocol: Protocol, p: WorldPair) returns (r: Result<PairMaterial, PipelineError>)
    requires Known(protocol)(p)
    ensures r == Ok(MaterialOf(protocol)(p))
  {
    var material := VerifyPairMaterial(p.left, p.right, protocol);
    match material {
      case Err(error) => return Err(VerificationFailed(error));
      case Ok(m) => r := Ok(m);
    }
  }

  /** `verify_workspace100_materials` */
  method BuildMaterials(protocol: Protocol, pairs: seq<WorldPair>) returns (r: Result<seq<PairMaterial>, PipelineError>)
    requires AllMeet(Known(protocol), pairs)
    ensures r == Ok(Apply(pairs, MaterialOf(protocol)))
  {
    var materials: seq<PairMaterial> := [];
    ghost var expected := Apply(pairs, MaterialOf(protocol));
    for i := 0 to |pairs|
      invariant materials == expected[..i]
    {
      var material := BuildMaterial(protocol, pairs[i]);
      match material {
        case Err(error) => return Err(error);
        case Ok(m) =>
          PrefixGrows(materials, expected, i, m);
          materials := materials + [m];
      }
    }
    assert expected[..|pairs|] == expected;
    r := Ok(materials);
  }

  // ---------- the scan for private text ----------

  function RouteMarkers(r: PairRoute): seq<string> {
    [r.pairId, r.manifest.taskId, r.left.episodeId, r.right.episodeId]
    + r.manifest.candidateCommitments + [r.left.snapshot, r.right.snapshot]
  }

  /** The text search itself: does a case show one of these markers, or a forbidden label? */
  type Scanner = (seq<string>, PublicCase) -> bool

  /** `_validate_no_private_leaks` */
  ghost predicate Clean(leaks: Scanner, views: EvidenceViews) {
    forall k :: k in views.cases ==> !leaks(Flat(views.routes, RouteMarkers), k)
  }

  method ScanCases(leaks: Scanner, views: EvidenceViews) returns (clean: bool)
    ensures clean <==> Clean(leaks, views)
  {
    var markers := Flat(views.routes, RouteMarkers);
    for i := 0 to |views.cases|
      invariant forall j :: 0 <= j < i ==> !leaks(markers, views.cases[j])
    {
      if leaks(markers, views.cases[i]) {
        assert views.cases[i] in views.cases;
        return false;
      }
    }
    clean := true;
  }

  // ---------- the release ----------

  /** The public views and the private truth. */
  datatype Release = Release(views: EvidenceViews, truth: TruthSet)

  /** What the construction is specified to return for materials. */
  function ReleaseOf(protocol: Protocol, ms: seq<PairMaterial>): Release {
    var ordered := Sort(ByKey(MaterialKey), ms);
    Release(ViewsOf(protocol, ordered), TruthFor(protocol, ordered))
  }

  /** Every modelled check on views and on truth sets. */
  ghost predicate ValidRelease(protocol: Protocol, release: Release, pairs: nat) {
    && ValidViews(protocol, release.views, pairs)
    && release.truth.binding == release.views && ValidTruthSet(protocol, release.truth, pairs)
  }

  /** The specified release of any number of admissible pairs passes every check. */
  lemma ReleaseIsValid(protocol: Protocol, ms: seq<PairMaterial>)
    requires protocol.Binding() && Admissible(Good(protocol), Sort(ByKey(MaterialKey), ms))
    ensures ValidRelease(protocol, ReleaseOf(protocol, ms), |ms|)
  {
    ViewsAreValid(protocol, ms);
    TruthIsValid(protocol, ms);
  }

  /** The projection of materials, with the scan that ends its validation. */
  method BuildViews(protocol: Protocol, leaks: Scanner, ms: seq<PairMaterial>)
    returns (r: Result<EvidenceViews, PipelineError>)
    requires protocol.Binding() && Admissible(Good(protocol), Sort(ByKey(MaterialKey), ms))
    ensures var views := ReleaseOf(protocol, ms).views; r == if Clean(leaks, views) then Ok(views) else Err(PrivateText)
  {
    var projected := ProjectVerifiedMaterials(protocol, ms);
    match projected {
      case Err(error) => return Err(ProjectionFailed(error));
      case Ok(views) =>
        var clean := ScanCases(leaks, views);
        if !clean {
          return Err(PrivateText);
        }
        r := Ok(views);
    }
  }

  lemma CorpusIsProjected(protocol: Protocol, pairs: seq<WorldPair>)
    requires Corpus(protocol, pairs)
    ensures var ms := Apply(pairs, MaterialOf(protocol)); var ordered := Sort(ByKey(MaterialKey), ms);
      && Admissible(Good(protocol), ordered)
      && ProjectedFrom(protocol, pairs, ViewsOf(protocol, ordered), ordered)
  {
    var ms := Apply(pairs, MaterialOf(protocol));
    CorpusIsAdmissible(protocol, pairs, ms);
    AdmissibleIsRegular(protocol, Sort(ByKey(MaterialKey), ms));
  }

  /** From any corpus to its release, which passes every modelled check. The one
      check that can still fail is the text scan of the public cases. */
  method BuildCorpus(protocol: Protocol, leaks: Scanner, pairs: seq<WorldPair>)
    returns (r: Result<Release, PipelineError>)
    requires Corpus(protocol, pairs)
    ensures var release := ReleaseOf(protocol, Apply(pairs, MaterialOf(protocol)));
      && r == (if Clean(leaks, release.views) then Ok(release) else Err(PrivateText))
      && ValidRelease(protocol, release, |pairs|)
  {
    CorpusIsProjected(protocol, pairs);
    ghost var expected := Apply(pairs, MaterialOf(protocol));
    ReleaseIsValid(protocol, expected);
    var materials := BuildMaterials(protocol, pairs);
    match materials {
      case Err(error) => return Err(error);
      case Ok(ms) =>
        var views := BuildViews(protocol, leaks, ms);
        match views {
          case Err(error) => return Err(error);
          case Ok(public) =>
            var truth := BuildTruth(protocol, pairs, public, Sort(ByKey(MaterialKey), expected));
            match truth {
              case Err(error) => return Err(error);
              case Ok(private) => r := Ok(Release(public, private));
            }
        }
    }
  }

  /** The materials of a catalogue of variants. */
  ghost function MaterialsOf(shop: Workshop, variants: seq<VariantRecord>): seq<PairMaterial> {
    Apply(Apply(variants, WorldsOf(shop)), MaterialOf(shop.protocol))
  }

  /** From any catalogue of valid variants to a release that passes every
      modelled check, unless the text scan refuses the projected cases. */
  method BuildRelease(shop: Workshop, leaks: Scanner, variants: seq<VariantRecord>)
    returns (r: Result<Release, PipelineError>)
    requires ReadyToBuild(shop, variants)
    ensures var release := ReleaseOf(shop.protocol, MaterialsOf(shop, variants));
      && r == (if Clean(leaks, release.views) then Ok(release) else Err(PrivateText))
      && ValidRelease(shop.protocol, release, |variants|)
  {
    VariantsFormACorpus(shop, variants);
    r := BuildCorpus(shop.protocol, leaks, Apply(variants, WorldsOf(shop)));
  }

  // ---------- what a release means ----------

  function CauseFamily(w: Workspace100World): TargetFamily {
    if w.record.SelectorAligned() then ENVIRONMENT_FAMILY else POLICY_FAMILY
  }

  lemma CauseIsPanel(protocol: Protocol, p: WorldPair, m: PairMaterial, left: bool)
    requires Known(protocol)(p) && m == MaterialOf(protocol)(p)
    ensures var w := if left then p.left else p.right;
      SideOf(m, left).panel.minimalWitnesses == [[Cause(w)]] && SideOf(m, left).panel.targetFamily == CauseFamily(w)
  {
    RuntimePanel(if left then p.left else p.right);
  }

  lemma GradedByPanel(protocol: Protocol, m: PairMaterial, t: TemplateRecord, s: Slot, run: RunOutcome)
    requires protocol.Binding() && SoundTwins(m, t)
    ensures var panel := SideOf(m, s.0).panel;
      FullMarks(Classify(run, TruthAt(protocol, m)(s)), s.1, run, panel.targetFamily, panel.minimalWitnesses)
  {
    TruthIsSound(protocol, m, t, s);
    ScoresFollowPanels(m, t, protocol, s, TruthAt(protocol, m)(s), run);
  }

  lemma PairIsSound(protocol: Protocol, pairs: seq<WorldPair>, i: nat)
    requires Corpus(protocol, pairs) && i < |pairs|
    ensures var m := MaterialOf(protocol)(pairs[i]); SoundTwins(m, protocol.templates(m.templateId))
  {
    var ms := Apply(pairs, MaterialOf(protocol));
    assert Unrelated(ms[i].left, ms[i].right);
    TwinsAreGood(protocol, pairs[i], ms[i]);
    GoodTwinsAreSound(protocol, ms[i]);
  }

  lemma PairGrades(protocol: Protocol, pairs: seq<WorldPair>, i: nat, s: Slot, run: RunOutcome)
    requires Corpus(protocol, pairs) && i < |pairs|
    ensures var m := MaterialOf(protocol)(pairs[i]); var w := if s.0 then pairs[i].left else pairs[i].right;
      FullMarks(Classify(run, TruthAt(protocol, m)(s)), s.1, run, CauseFamily(w), [[Cause(w)]])
  {
    var m := MaterialOf(protocol)(pairs[i]);
    PairIsSound(protocol, pairs, i);
    GradedByPanel(protocol, m, protocol.templates(m.templateId), s, run);
    CauseIsPanel(protocol, pairs[i], m, s.0);
  }

  /** From records to scores: on every case of a release full marks go to
      exactly the claims that name the intervention which the shown record's own
      construction makes causal, or that abstain where both twins look alike. */
  lemma ExactClaimsNameTheCause(protocol: Protocol, pairs: seq<WorldPair>, c: TruthCase, run: RunOutcome)
    returns (i: nat, s: Slot)
    requires Corpus(protocol, pairs)
    requires c in ReleaseOf(protocol, Apply(pairs, MaterialOf(protocol))).truth.cases
    ensures i < |pairs| && s in SIX_SLOTS && c == TruthAt(protocol, MaterialOf(protocol)(pairs[i]))(s)
    ensures var w := if s.0 then pairs[i].left else pairs[i].right;
      FullMarks(Classify(run, c), s.1, run, CauseFamily(w), [[Cause(w)]])
  {
    i, s := CaseOrigin(protocol, pairs, c);
    PairGrades(protocol, pairs, i, s, run);
  }

  lemma TruthOrigin(protocol: Protocol, ms: seq<PairMaterial>, c: TruthCase) returns (i: nat, s: Slot)
    requires c in TruthFor(protocol, ms).cases
    ensures i < |ms| && s in SIX_SLOTS && c == TruthAt(protocol, ms[i])(s)
  {
    SortKeeps(ByKey(TruthKey), Flat(ms, PairTruths(protocol)), c);
    i, s := TruthFrom(protocol, ms, c);
  }

  lemma SortedFrom<T>(le: (T, T) -> bool, s: seq<T>, k: nat) returns (i: nat)
    requires k < |Sort(le, s)|
    ensures i < |s| && s[i] == Sort(le, s)[k]
  {
    SortKeeps(le, s, Sort(le, s)[k]);
    i :| 0 <= i < |s| && s[i] == Sort(le, s)[k];
  }

  lemma CaseOrigin(protocol: Protocol, pairs: seq<WorldPair>, c: TruthCase) returns (i: nat, s: Slot)
    requires c in ReleaseOf(protocol, Apply(pairs, MaterialOf(protocol))).truth.cases
    ensures i < |pairs| && s in SIX_SLOTS && c == TruthAt(protocol, MaterialOf(protocol)(pairs[i]))(s)
  {
    var ms := Apply(pairs, MaterialOf(protocol));
    var k;
    k, s := TruthOrigin(protocol, Sort(ByKey(MaterialKey), ms), c);
    i := SortedFrom(ByKey(MaterialKey), ms, k);
  }

  /** On every release each baseline scores exactly its per-pair counts, once
      for every pair. */
  lemma BaselinesOnRelease(protocol: Protocol, pairs: seq<WorldPair>, baseline: Baseline)
    requires Corpus(protocol, pairs)
    ensures var truth := ReleaseOf(protocol, Apply(pairs, MaterialOf(protocol))).truth;
      CountCategories(Apply(truth.cases, GradeOf(baseline, protocol))) == Scaled(PairCounts(baseline), |pairs|)
  {
    var ms := Apply(pairs, MaterialOf(protocol));
    var ordered := Sort(ByKey(MaterialKey), ms);
    CorpusIsProjected(protocol, pairs);
    AdmissibleIsSound(protocol, ordered);
    SameMultiset(ms, ordered);
    BaselinesScaleLinearly(baseline, protocol, ordered);
  }

  /** The same through the claim matrix: on a release, whatever the schedule and
      whatever other methods answer, the scorer accepts the claims, and a method
      whose workers answer as a baseline gets that baseline's counts. */
  lemma BaselineScoreOnRelease(
      protocol: Protocol, pairs: seq<WorldPair>, s: Setup, answer: RunKey -> RunOutcome, order: seq<RunKey>,
      request: Evidence -> string, scored: seq<ScoredRun>, n: nat, baseline: Baseline)
    requires Corpus(protocol, pairs) && s.Valid() && ValidOrder(s, order) && n < |s.methods|
    requires var cases := ReleaseOf(protocol, Apply(pairs, MaterialOf(protocol))).truth.cases;
      var claims := Evaluated(s, answer, order);
      && ClaimScoring.Runs(s, cases, request)
      && (forall c :: c in cases ==>
            answer(RunKey(s.methods[n].methodId, c.digest)) == BaselineSays(baseline, protocol)(c))
      && (ClaimScoring.Scorable(claims, cases, request) ==>
            Answers(ScoreOf(claims.runs, request), Cells(Apply(s.methods, MethodDigest), cases), scored))
    ensures ClaimScoring.Scorable(
      Evaluated(s, answer, order), ReleaseOf(protocol, Apply(pairs, MaterialOf(protocol))).truth.cases, request)
    ensures CountCategories(Apply(Filter(scored, ByMethod(s.methods[n].digest)), ScoredCategory))
      == Scaled(PairCounts(baseline), |pairs|)
  {
    var ms := Apply(pairs, MaterialOf(protocol));
    var ordered := Sort(ByKey(MaterialKey), ms);
    CorpusIsProjected(protocol, pairs);
    AdmissibleIsSound(protocol, ordered);
    SameMultiset(ms, ordered);
    BaselineIsScored(protocol, ordered, s, answer, order, request, scored, n, baseline);
  }
}
