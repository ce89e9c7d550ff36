/** Score slices by view and template, and why their tables always add up
    (src/witnessgap/workspace100/scoring.py:2097-2280). */
module Slices {
  import opened Model
  import opened Permutations
  import opened Records
  import opened Views
  import opened WorkerRun
  import opened SingleCause
  import opened Scores

  const TEMPLATE_ORDER := [PublishDraft, InviteMember, MoveWorkItem, ScheduleReview, GrantAccess]

  datatype FailureCounts = FailureCounts(
    timedOut: nat, outputLimitExceeded: nat, nonzeroExit: nat, emptyOutput: nat, invalidClaim: nat)
  {
    function CountFor(f: FailureKind): nat {
      match f
      case WorkerTimedOut => timedOut
      case WorkerOutputLimit => outputLimitExceeded
      case NonzeroExit => nonzeroExit
      case EmptyOutput => emptyOutput
      case InvalidClaim => invalidClaim
    }

    function Total(): nat {
      timedOut + outputLimitExceeded + nonzeroExit + emptyOutput + invalidClaim
    }
  }

  /** `_ScoreObservation` */
  datatype Observation = Observation(
    view: ViewKind, templateId: TemplateId, category: Category, failure: Option<FailureKind>)

  datatype SliceKind = Overall | ByView | ByTemplate | ByViewTemplate

  datatype Dimension = Dimension(kind: SliceKind, view: Option<ViewKind>, templateId: Option<TemplateId>)

  /** A slice's metrics are `MetricsFor(counts)`; they are not stored twice. */
  datatype Slice = Slice(dimension: Dimension, counts: ScoreCounts, failures: FailureCounts)

  // ---------- building ----------

  function ViewDimension(): ViewKind -> Dimension {
    (v: ViewKind) => Dimension(ByView, Some(v), None)
  }

  function TemplateDimension(): TemplateId -> Dimension {
    (t: TemplateId) => Dimension(ByTemplate, None, Some(t))
  }

  function CellDimension(v: ViewKind): TemplateId -> Dimension {
    (t: TemplateId) => Dimension(ByViewTemplate, Some(v), Some(t))
  }

  function Row(v: ViewKind): seq<Dimension> {
    Apply(TEMPLATE_ORDER, CellDimension(v))
  }

  function Rows(): seq<Dimension> {
    Row(TraceOnly) + (Row(OwnerProbe) + (Row(EpochProbe) + Row(RefreshReceipt)))
  }

  /** `_slice_dimensions` */
  function SliceDimensions(): seq<Dimension> {
    [Dimension(Overall, None, None)]
    + (Apply(VIEW_ORDER, ViewDimension()) + (Apply(TEMPLATE_ORDER, TemplateDimension()) + Rows()))
  }

  /** `_matches_slice` */
  function MatchesSlice(d: Dimension): Observation -> bool {
    (o: Observation) =>
      && (d.view == None || d.view == Some(o.view))
      && (d.templateId == None || d.templateId == Some(o.templateId))
  }

  function HasFailure(f: FailureKind): Observation -> bool {
    (o: Observation) => o.failure == Some(f)
  }

  function CategoryOf(o: Observation): Category {
    o.category
  }

  function CountFailures(selected: seq<Observation>): FailureCounts {
    FailureCounts(
      |Filter(selected, HasFailure(WorkerTimedOut))|,
      |Filter(selected, HasFailure(WorkerOutputLimit))|,
      |Filter(selected, HasFailure(NonzeroExit))|,
      |Filter(selected, HasFailure(EmptyOutput))|,
      |Filter(selected, HasFailure(InvalidClaim))|)
  }

  /** `_build_score_slice` */
  function BuildSlice(observations: seq<Observation>): Dimension -> Slice {
    (d: Dimension) =>
      var selected := Filter(observations, MatchesSlice(d));
      Slice(d, CountCategories(Apply(selected, CategoryOf)), CountFailures(selected))
  }

  /** `_build_slices` */
  function BuildSlices(observations: seq<Observation>): seq<Slice> {
    Apply(SliceDimensions(), BuildSlice(observations))
  }

  // ---------- the additivity check ----------

  /** One component of a slice's count vector. */
  datatype Component = OfCategory(c: Category) | OfFailure(f: FailureKind)

  function CountAt(s: Slice, k: Component): nat {
    match k
    case OfCategory(c) => s.counts.Of(c)
    case OfFailure(f) => s.failures.CountFor(f)
  }

  /** `_sum_count_vectors`, one component at a time. */
  function SumAt(slices: seq<Slice>, k: Component): nat {
    if slices == [] then 0 else CountAt(slices[0], k) + SumAt(slices[1..], k)
  }

  function OfKind(kind: SliceKind): Slice -> bool {
    (s: Slice) => s.dimension.kind == kind
  }

  function InView(v: Option<ViewKind>): Slice -> bool {
    (s: Slice) => s.dimension.kind == ByViewTemplate && s.dimension.view == v
  }

  function InTemplate(t: Option<TemplateId>): Slice -> bool {
    (s: Slice) => s.dimension.kind == ByViewTemplate && s.dimension.templateId == t
  }

  /** `_validate_slice_additivity` */
  ghost predicate Additive(slices: seq<Slice>)
    requires slices != []
  {
    var views := Filter(slices, OfKind(ByView));
    var templates := Filter(slices, OfKind(ByTemplate));
    && (forall k :: SumAt(views, k) == CountAt(slices[0], k))
    && (forall k :: SumAt(templates, k) == CountAt(slices[0], k))
    && (forall s, k :: s in views ==> SumAt(Filter(slices, InView(s.dimension.view)), k) == CountAt(s, k))
    && (forall s, k :: s in templates ==> SumAt(Filter(slices, InTemplate(s.dimension.templateId)), k) == CountAt(s, k))
  }

  // ---------- one tally behind every count ----------

  predicate Shows(o: Observation, k: Component) {
    match k
    case OfCategory(c) => o.category == c
    case OfFailure(f) => o.failure == Some(f)
  }

  /** How many observations fall in a dimension and show a component. */
  function Tally(observations: seq<Observation>, d: Dimension, k: Component): nat {
    if observations == [] then 0
    else
      Tally(observations[1..], d, k)
      + if MatchesSlice(d)(observations[0]) && Shows(observations[0], k) then 1 else 0
  }

  lemma {:induction false} CategoryTally(observations: seq<Observation>, d: Dimension, c: Category)
    ensures multiset(Apply(Filter(observations, MatchesSlice(d)), CategoryOf))[c]
      == Tally(observations, d, OfCategory(c))
  {
    if observations != [] {
      CategoryTally(observations[1..], d, c);
      var rest := Filter(observations[1..], MatchesSlice(d));
      if MatchesSlice(d)(observations[0]) {
        assert Apply([observations[0]] + rest, CategoryOf) == [observations[0].category] + Apply(rest, CategoryOf);
      }
    }
  }

  lemma {:induction false} FailureTally(observations: seq<Observation>, d: Dimension, f: FailureKind)
    ensures |Filter(Filter(observations, MatchesSlice(d)), HasFailure(f))| == Tally(observations, d, OfFailure(f))
  {
    if observations != [] {
      FailureTally(observations[1..], d, f);
    }
  }

  lemma CountedFailures(selected: seq<Observation>, f: FailureKind)
    ensures CountFailures(selected).CountFor(f) == |Filter(selected, HasFailure(f))|
  {
  }

  lemma CountedCategories(categories: seq<Category>, c: Category)
    ensures CountCategories(categories).Of(c) == multiset(categories)[c]
  {
    assert Counts(CountCategories(categories), categories);
  }

  lemma SliceTally(observations: seq<Observation>, d: Dimension, k: Component)
    ensures CountAt(BuildSlice(observations)(d), k) == Tally(observations, d, k)
  {
    var selected := Filter(observations, MatchesSlice(d));
    if k.OfCategory? {
      CategoryTally(observations, d, k.c);
      CountedCategories(Apply(selected, CategoryOf), k.c);
    } else {
      FailureTally(observations, d, k.f);
      CountedFailures(selected, k.f);
    }
  }

  // ---------- tallies add up ----------

  lemma {:induction false} TallyByView(
      observations: seq<Observation>, t: Option<TemplateId>, a: SliceKind, b: SliceKind, k: Component)
    ensures Tally(observations, Dimension(a, None, t), k)
      == Tally(observations, Dimension(b, Some(TraceOnly), t), k)
       + Tally(observations, Dimension(b, Some(OwnerProbe), t), k)
       + Tally(observations, Dimension(b, Some(EpochProbe), t), k)
       + Tally(observations, Dimension(b, Some(RefreshReceipt), t), k)
  {
    if observations != [] {
      TallyByView(observations[1..], t, a, b, k);
      match observations[0].view {
        case TraceOnly =>
        case OwnerProbe =>
        case EpochProbe =>
        case RefreshReceipt =>
      }
    }
  }

  lemma {:induction false} TallyByTemplate(
      observations: seq<Observation>, v: Option<ViewKind>, a: SliceKind, b: SliceKind, k: Component)
    ensures Tally(observations, Dimension(a, v, None), k)
      == Tally(observations, Dimension(b, v, Some(PublishDraft)), k)
       + Tally(observations, Dimension(b, v, Some(InviteMember)), k)
       + Tally(observations, Dimension(b, v, Some(MoveWorkItem)), k)
       + Tally(observations, Dimension(b, v, Some(ScheduleReview)), k)
       + Tally(observations, Dimension(b, v, Some(GrantAccess)), k)
  {
    if observations != [] {
      TallyByTemplate(observations[1..], v, a, b, k);
      match observations[0].templateId {
        case PublishDraft =>
        case InviteMember =>
        case MoveWorkItem =>
        case ScheduleReview =>
        case GrantAccess =>
      }
    }
  }

  // ---------- the built tables ----------

  lemma SumAppend(a: seq<Slice>, b: seq<Slice>, k: Component)
    ensures SumAt(a + b, k) == SumAt(a, k) + SumAt(b, k)
  {
    if a == [] {
      assert a + b == b;
    } else {
      assert (a + b)[1..] == a[1..] + b;
      SumAppend(a[1..], b, k);
    }
  }

  lemma ViewByView<T>(f: ViewKind -> T)
    ensures Apply(VIEW_ORDER, f) == [f(TraceOnly)] + ([f(OwnerProbe)] + ([f(EpochProbe)] + [f(RefreshReceipt)]))
  {
    FourViews(f);
  }

  lemma SumOfViews(f: ViewKind -> Slice, k: Component)
    ensures SumAt(Apply(VIEW_ORDER, f), k)
      == CountAt(f(TraceOnly), k) + CountAt(f(OwnerProbe), k)
       + CountAt(f(EpochProbe), k) + CountAt(f(RefreshReceipt), k)
  {
    ViewByView(f);
    SumAppend([f(TraceOnly)], [f(OwnerProbe)] + ([f(EpochProbe)] + [f(RefreshReceipt)]), k);
    SumAppend([f(OwnerProbe)], [f(EpochProbe)] + [f(RefreshReceipt)], k);
    SumAppend([f(EpochProbe)], [f(RefreshReceipt)], k);
    SumOne(f(TraceOnly), k);
    SumOne(f(OwnerProbe), k);
    SumOne(f(EpochProbe), k);
    SumOne(f(RefreshReceipt), k);
  }

  lemma SumOne(s: Slice, k: Component)
    ensures SumAt([s], k) == CountAt(s, k)
  {
    assert [s][1..] == [];
  }

  lemma SumOfTemplates(f: TemplateId -> Slice, k: Component)
    ensures SumAt(Apply(TEMPLATE_ORDER, f), k)
      == CountAt(f(PublishDraft), k) + CountAt(f(InviteMember), k) + CountAt(f(MoveWorkItem), k)
       + CountAt(f(ScheduleReview), k) + CountAt(f(GrantAccess), k)
  {
    var slices := Apply(TEMPLATE_ORDER, f);
    var tail := [f(MoveWorkItem)] + ([f(ScheduleReview)] + [f(GrantAccess)]);
    assert slices == [f(PublishDraft)] + ([f(InviteMember)] + tail);
    SumAppend([f(PublishDraft)], [f(InviteMember)] + tail, k);
    SumAppend([f(InviteMember)], tail, k);
    SumAppend([f(MoveWorkItem)], [f(ScheduleReview)] + [f(GrantAccess)], k);
    SumAppend([f(ScheduleReview)], [f(GrantAccess)], k);
    SumOne(f(PublishDraft), k);
    SumOne(f(InviteMember), k);
    SumOne(f(MoveWorkItem), k);
    SumOne(f(ScheduleReview), k);
    SumOne(f(GrantAccess), k);
  }

  /** The slices of some kind are those built for the dimensions of that kind. */
  lemma SlicesWhere(observations: seq<Observation>, p: Slice -> bool, q: Dimension -> bool)
    requires forall d :: q(d) <==> p(BuildSlice(observations)(d))
    ensures Filter(BuildSlices(observations), p) == Apply(Filter(SliceDimensions(), q), BuildSlice(observations))
  {
    ApplyFilter(SliceDimensions(), BuildSlice(observations), q, p);
  }

  function DimensionKind(kind: SliceKind): Dimension -> bool {
    (d: Dimension) => d.kind == kind
  }

  function CellInView(v: Option<ViewKind>): Dimension -> bool {
    (d: Dimension) => d.kind == ByViewTemplate && d.view == v
  }

  function CellInTemplate(t: Option<TemplateId>): Dimension -> bool {
    (d: Dimension) => d.kind == ByViewTemplate && d.templateId == t
  }

  /** Filtering the dimension list, section by section. */
  lemma FilterDimensions(q: Dimension -> bool)
    ensures Filter(SliceDimensions(), q)
      == Filter([Dimension(Overall, None, None)], q)
       + (Filter(Apply(VIEW_ORDER, ViewDimension()), q)
       + (Filter(Apply(TEMPLATE_ORDER, TemplateDimension()), q) + Filter(Rows(), q)))
  {
    var views, templates := Apply(VIEW_ORDER, ViewDimension()), Apply(TEMPLATE_ORDER, TemplateDimension());
    FilterAppend([Dimension(Overall, None, None)], views + (templates + Rows()), q);
    FilterAppend(views, templates + Rows(), q);
    FilterAppend(templates, Rows(), q);
  }

  lemma FilterRows(q: Dimension -> bool)
    ensures Filter(Rows(), q)
      == Filter(Row(TraceOnly), q)
       + (Filter(Row(OwnerProbe), q) + (Filter(Row(EpochProbe), q) + Filter(Row(RefreshReceipt), q)))
  {
    FilterAppend(Row(TraceOnly), Row(OwnerProbe) + (Row(EpochProbe) + Row(RefreshReceipt)), q);
    FilterAppend(Row(OwnerProbe), Row(EpochProbe) + Row(RefreshReceipt), q);
    FilterAppend(Row(EpochProbe), Row(RefreshReceipt), q);
  }

  lemma ViewDimensions()
    ensures Filter(SliceDimensions(), DimensionKind(ByView)) == Apply(VIEW_ORDER, ViewDimension())
  {
    var q := DimensionKind(ByView);
    FilterDimensions(q);
    FilterNothing([Dimension(Overall, None, None)], q);
    FilterEverything(Apply(VIEW_ORDER, ViewDimension()), q);
    FilterNothing(Apply(TEMPLATE_ORDER, TemplateDimension()), q);
    RowsAre(ByView);
  }

  lemma RowsAre(kind: SliceKind)
    ensures Filter(Rows(), DimensionKind(kind)) == if kind == ByViewTemplate then Rows() else []
  {
    forall i | 0 <= i < |Rows()| ensures Rows()[i].kind == ByViewTemplate {
      RowsAreCells(i);
    }
    if kind == ByViewTemplate {
      FilterEverything(Rows(), DimensionKind(kind));
    } else {
      FilterNothing(Rows(), DimensionKind(kind));
    }
  }

  lemma RowsAreCells(i: nat)
    requires i < |Rows()|
    ensures Rows()[i].kind == ByViewTemplate
  {
  }

  lemma TemplateDimensions()
    ensures Filter(SliceDimensions(), DimensionKind(ByTemplate)) == Apply(TEMPLATE_ORDER, TemplateDimension())
  {
    var q := DimensionKind(ByTemplate);
    FilterDimensions(q);
    FilterNothing([Dimension(Overall, None, None)], q);
    FilterNothing(Apply(VIEW_ORDER, ViewDimension()), q);
    FilterEverything(Apply(TEMPLATE_ORDER, TemplateDimension()), q);
    RowsAre(ByTemplate);
  }

  lemma OnlyRows(q: Dimension -> bool)
    requires forall d :: q(d) ==> d.kind == ByViewTemplate
    ensures Filter(SliceDimensions(), q) == Filter(Rows(), q)
  {
    FilterDimensions(q);
    FilterNothing([Dimension(Overall, None, None)], q);
    FilterNothing(Apply(VIEW_ORDER, ViewDimension()), q);
    FilterNothing(Apply(TEMPLATE_ORDER, TemplateDimension()), q);
  }

  lemma RowInView(v: ViewKind, w: ViewKind)
    ensures Filter(Row(w), CellInView(Some(v))) == if v == w then Row(w) else []
  {
    if v == w {
      FilterEverything(Row(w), CellInView(Some(v)));
    } else {
      FilterNothing(Row(w), CellInView(Some(v)));
    }
  }

  lemma CellsInView(v: ViewKind)
    ensures Filter(SliceDimensions(), CellInView(Some(v))) == Row(v)
  {
    OnlyRows(CellInView(Some(v)));
    FilterRows(CellInView(Some(v)));
    RowInView(v, TraceOnly);
    RowInView(v, OwnerProbe);
    RowInView(v, EpochProbe);
    RowInView(v, RefreshReceipt);
  }

  lemma TemplateIsListed(t: TemplateId)
    ensures t in TEMPLATE_ORDER
  {
    match t {
      case PublishDraft => assert TEMPLATE_ORDER[0] == t;
      case InviteMember => assert TEMPLATE_ORDER[1] == t;
      case MoveWorkItem => assert TEMPLATE_ORDER[2] == t;
      case ScheduleReview => assert TEMPLATE_ORDER[3] == t;
      case GrantAccess => assert TEMPLATE_ORDER[4] == t;
    }
  }

  function CellOf(t: TemplateId): ViewKind -> Dimension {
    (v: ViewKind) => Dimension(ByViewTemplate, Some(v), Some(t))
  }

  lemma RowInTemplate(t: TemplateId, w: ViewKind)
    ensures Filter(Row(w), CellInTemplate(Some(t))) == [CellOf(t)(w)]
  {
    TemplateIsListed(t);
    var i :| 0 <= i < |TEMPLATE_ORDER| && TEMPLATE_ORDER[i] == t;
    assert Row(w)[i] == CellOf(t)(w);
    FilterOne(Row(w), CellInTemplate(Some(t)), CellOf(t)(w));
  }

  lemma CellsInTemplate(t: TemplateId)
    ensures Filter(SliceDimensions(), CellInTemplate(Some(t))) == Apply(VIEW_ORDER, CellOf(t))
  {
    OnlyRows(CellInTemplate(Some(t)));
    FilterRows(CellInTemplate(Some(t)));
    RowInTemplate(t, TraceOnly);
    RowInTemplate(t, OwnerProbe);
    RowInTemplate(t, EpochProbe);
    RowInTemplate(t, RefreshReceipt);
    ViewByView(CellOf(t));
  }

  // ---------- additivity ----------

  function Built<T>(observations: seq<Observation>, f: T -> Dimension): T -> Slice {
    (x: T) => BuildSlice(observations)(f(x))
  }

  lemma ViewsAddUp(
      observations: seq<Observation>, t: Option<TemplateId>, a: SliceKind, f: ViewKind -> Dimension, b: SliceKind,
      k: Component)
    requires forall v :: f(v) == Dimension(b, Some(v), t)
    ensures SumAt(Apply(Apply(VIEW_ORDER, f), BuildSlice(observations)), k)
      == CountAt(BuildSlice(observations)(Dimension(a, None, t)), k)
  {
    var g := Built(observations, f);
    assert Apply(Apply(VIEW_ORDER, f), BuildSlice(observations)) == Apply(VIEW_ORDER, g);
    SumOfViews(g, k);
    SliceTally(observations, f(TraceOnly), k);
    SliceTally(observations, f(OwnerProbe), k);
    SliceTally(observations, f(EpochProbe), k);
    SliceTally(observations, f(RefreshReceipt), k);
    SliceTally(observations, Dimension(a, None, t), k);
    TallyByView(observations, t, a, b, k);
  }

  lemma TemplatesAddUp(
      observations: seq<Observation>, v: Option<ViewKind>, a: SliceKind, f: TemplateId -> Dimension, b: SliceKind,
      k: Component)
    requires forall t :: f(t) == Dimension(b, v, Some(t))
    ensures SumAt(Apply(Apply(TEMPLATE_ORDER, f), BuildSlice(observations)), k)
      == CountAt(BuildSlice(observations)(Dimension(a, v, None)), k)
  {
    var g := Built(observations, f);
    assert Apply(Apply(TEMPLATE_ORDER, f), BuildSlice(observations)) == Apply(TEMPLATE_ORDER, g);
    SumOfTemplates(g, k);
    SliceTally(observations, f(PublishDraft), k);
    SliceTally(observations, f(InviteMember), k);
    SliceTally(observations, f(MoveWorkItem), k);
    SliceTally(observations, f(ScheduleReview), k);
    SliceTally(observations, f(GrantAccess), k);
    SliceTally(observations, Dimension(a, v, None), k);
    TallyByTemplate(observations, v, a, b, k);
  }

  lemma ViewTableAdds(observations: seq<Observation>, k: Component)
    ensures SumAt(Filter(BuildSlices(observations), OfKind(ByView)), k) == CountAt(BuildSlices(observations)[0], k)
  {
    SlicesWhere(observations, OfKind(ByView), DimensionKind(ByView));
    ViewDimensions();
    ViewsAddUp(observations, None, Overall, ViewDimension(), ByView, k);
  }

  lemma TemplateTableAdds(observations: seq<Observation>, k: Component)
    ensures SumAt(Filter(BuildSlices(observations), OfKind(ByTemplate)), k) == CountAt(BuildSlices(observations)[0], k)
  {
    SlicesWhere(observations, OfKind(ByTemplate), DimensionKind(ByTemplate));
    TemplateDimensions();
    TemplatesAddUp(observations, None, Overall, TemplateDimension(), ByTemplate, k);
  }

  lemma ViewRowAdds(observations: seq<Observation>, v: ViewKind, k: Component)
    ensures SumAt(Filter(BuildSlices(observations), InView(Some(v))), k)
      == CountAt(BuildSlice(observations)(ViewDimension()(v)), k)
  {
    SlicesWhere(observations, InView(Some(v)), CellInView(Some(v)));
    CellsInView(v);
    TemplatesAddUp(observations, Some(v), ByView, CellDimension(v), ByViewTemplate, k);
  }

  lemma TemplateColumnAdds(observations: seq<Observation>, t: TemplateId, k: Component)
    ensures SumAt(Filter(BuildSlices(observations), InTemplate(Some(t))), k)
      == CountAt(BuildSlice(observations)(TemplateDimension()(t)), k)
  {
    SlicesWhere(observations, InTemplate(Some(t)), CellInTemplate(Some(t)));
    CellsInTemplate(t);
    ViewsAddUp(observations, Some(t), ByTemplate, CellOf(t), ByViewTemplate, k);
  }

  lemma AppliedTwice<K, D, S>(keys: seq<K>, f: K -> D, g: D -> S, s: S) returns (i: nat)
    requires s in Apply(Apply(keys, f), g)
    ensures i < |keys| && s == g(f(keys[i]))
  {
    i :| 0 <= i < |keys| && Apply(Apply(keys, f), g)[i] == s;
  }

  lemma ViewSliceIs(observations: seq<Observation>, s: Slice) returns (v: ViewKind)
    requires s in Filter(BuildSlices(observations), OfKind(ByView))
    ensures s == BuildSlice(observations)(ViewDimension()(v)) && s.dimension.view == Some(v)
  {
    SlicesWhere(observations, OfKind(ByView), DimensionKind(ByView));
    ViewDimensions();
    var i := AppliedTwice(VIEW_ORDER, ViewDimension(), BuildSlice(observations), s);
    v := VIEW_ORDER[i];
  }

  lemma TemplateSliceIs(observations: seq<Observation>, s: Slice) returns (t: TemplateId)
    requires s in Filter(BuildSlices(observations), OfKind(ByTemplate))
    ensures s == BuildSlice(observations)(TemplateDimension()(t)) && s.dimension.templateId == Some(t)
  {
    SlicesWhere(observations, OfKind(ByTemplate), DimensionKind(ByTemplate));
    TemplateDimensions();
    var i := AppliedTwice(TEMPLATE_ORDER, TemplateDimension(), BuildSlice(observations), s);
    t := TEMPLATE_ORDER[i];
  }

  /** Whatever was observed, the view, template and view-by-template tables all
      add up, in every category and every failure kind. */
  lemma SlicesAreAdditive(observations: seq<Observation>)
    ensures BuildSlices(observations) != [] && Additive(BuildSlices(observations))
  {
    var slices := BuildSlices(observations);
    forall k ensures SumAt(Filter(slices, OfKind(ByView)), k) == CountAt(slices[0], k) {
      ViewTableAdds(observations, k);
    }
    forall k ensures SumAt(Filter(slices, OfKind(ByTemplate)), k) == CountAt(slices[0], k) {
      TemplateTableAdds(observations, k);
    }
    forall s, k | s in Filter(slices, OfKind(ByView))
      ensures SumAt(Filter(slices, InView(s.dimension.view)), k) == CountAt(s, k)
    {
      var v := ViewSliceIs(observations, s);
      ViewRowAdds(observations, v, k);
    }
    forall s, k | s in Filter(slices, OfKind(ByTemplate))
      ensures SumAt(Filter(slices, InTemplate(s.dimension.templateId)), k) == CountAt(s, k)
    {
      var t := TemplateSliceIs(observations, s);
      TemplateColumnAdds(observations, t, k);
    }
  }

  // ---------- failures and failed categories ----------

  /** A worker failure is recorded exactly for the failed categories. */
  predicate Consistent(o: Observation) {
    o.failure.Some? <==> o.category == FailedAmbiguous || o.category == FailedIdentifiable
  }

  function FailedAmong(selected: seq<Observation>): nat {
    if selected == [] then 0 else FailedAmong(selected[1..]) + if selected[0].failure.Some? then 1 else 0
  }

  lemma FailureHead(o: Observation, rest: seq<Observation>, f: FailureKind)
    ensures |Filter([o] + rest, HasFailure(f))| == |Filter(rest, HasFailure(f))| + if o.failure == Some(f) then 1 else 0
  {
    FilterAppend([o], rest, HasFailure(f));
    assert Filter([o], HasFailure(f)) == if o.failure == Some(f) then [o] else [];
  }

  lemma FailureStep(o: Observation, rest: seq<Observation>)
    ensures CountFailures([o] + rest).Total() == CountFailures(rest).Total() + if o.failure.Some? then 1 else 0
  {
    FailureHead(o, rest, WorkerTimedOut);
    FailureHead(o, rest, WorkerOutputLimit);
    FailureHead(o, rest, NonzeroExit);
    FailureHead(o, rest, EmptyOutput);
    FailureHead(o, rest, InvalidClaim);
    match o.failure {
      case None =>
      case Some(WorkerTimedOut) =>
      case Some(WorkerOutputLimit) =>
      case Some(NonzeroExit) =>
      case Some(EmptyOutput) =>
      case Some(InvalidClaim) =>
    }
  }

  lemma {:induction false} FailuresAdd(selected: seq<Observation>)
    ensures CountFailures(selected).Total() == FailedAmong(selected)
  {
    if selected != [] {
      var head, rest := selected[0], selected[1..];
      FailuresAdd(rest);
      FailureStep(head, rest);
      assert selected == [head] + rest;
    }
  }

  predicate AllConsistent(selected: seq<Observation>) {
    selected == [] || (Consistent(selected[0]) && AllConsistent(selected[1..]))
  }

  lemma {:induction false} EachIsConsistent(selected: seq<Observation>)
    requires forall o :: o in selected ==> Consistent(o)
    ensures AllConsistent(selected)
  {
    if selected != [] {
      assert selected[0] in selected;
      EachIsConsistent(selected[1..]);
    }
  }

  function FailedIn(categories: seq<Category>): nat {
    if categories == [] then 0
    else
      FailedIn(categories[1..])
      + if categories[0] == FailedAmbiguous || categories[0] == FailedIdentifiable then 1 else 0
  }

  function OccurrencesOf(categories: seq<Category>, k: Category): nat {
    multiset(categories)[k]
  }

  lemma OccurrencesStep(head: Category, rest: seq<Category>, k: Category)
    ensures OccurrencesOf([head] + rest, k) == OccurrencesOf(rest, k) + if head == k then 1 else 0
  {
  }

  lemma {:induction false} FailedOccurrences(categories: seq<Category>)
    ensures FailedIn(categories)
      == OccurrencesOf(categories, FailedAmbiguous) + OccurrencesOf(categories, FailedIdentifiable)
  {
    if categories != [] {
      var head, rest := categories[0], categories[1..];
      assert categories == [head] + rest;
      OccurrencesStep(head, rest, FailedAmbiguous);
      OccurrencesStep(head, rest, FailedIdentifiable);
      FailedOccurrences(rest);
    }
  }

  lemma CountedFailedRuns(categories: seq<Category>)
    ensures CountCategories(categories).FailedRuns()
      == OccurrencesOf(categories, FailedAmbiguous) + OccurrencesOf(categories, FailedIdentifiable)
  {
  }

  /** Failed runs are those of the two failed categories. */
  lemma FailedRunsAreCategories(categories: seq<Category>)
    ensures CountCategories(categories).FailedRuns() == FailedIn(categories)
  {
    FailedOccurrences(categories);
    CountedFailedRuns(categories);
  }

  lemma {:induction false} FailedCategoriesAdd(selected: seq<Observation>)
    requires AllConsistent(selected)
    ensures FailedIn(Apply(selected, CategoryOf)) == FailedAmong(selected)
  {
    if selected != [] {
      FailedCategoriesAdd(selected[1..]);
      ApplyTail(selected, CategoryOf);
    }
  }

  lemma FailureCountsMatch(selected: seq<Observation>)
    requires AllConsistent(selected)
    ensures CountFailures(selected).Total() == CountCategories(Apply(selected, CategoryOf)).FailedRuns()
  {
    FailuresAdd(selected);
    FailedCategoriesAdd(selected);
    FailedRunsAreCategories(Apply(selected, CategoryOf));
  }

  lemma {:induction false} FilteredAreConsistent(observations: seq<Observation>, p: Observation -> bool)
    requires AllConsistent(observations)
    ensures AllConsistent(Filter(observations, p))
  {
    if observations != [] {
      FilteredAreConsistent(observations[1..], p);
      if p(observations[0]) {
        var kept := Filter(observations[1..], p);
        assert ([observations[0]] + kept)[1..] == kept;
      }
    }
  }

  lemma SliceFailures(observations: seq<Observation>, d: Dimension)
    requires AllConsistent(observations)
    ensures var s := BuildSlice(observations)(d); s.failures.Total() == s.counts.FailedRuns()
  {
    FilteredAreConsistent(observations, MatchesSlice(d));
    FailureCountsMatch(Filter(observations, MatchesSlice(d)));
  }

  lemma SlicePartition(observations: seq<Observation>, d: Dimension)
    ensures var s := BuildSlice(observations)(d);
      && s.counts.TotalCases() == |Filter(observations, MatchesSlice(d))|
      && s.counts.AmbiguousCases() + s.counts.IdentifiableCases() == s.counts.TotalCases()
  {
    CountsPartition(Apply(Filter(observations, MatchesSlice(d)), CategoryOf));
  }

  /** In every slice the failures add up to the failed runs, and its counts
      partition the cases it selects. */
  lemma SlicesAreConsistent(observations: seq<Observation>, d: Dimension)
    requires forall o :: o in observations ==> Consistent(o)
    ensures var s := BuildSlice(observations)(d);
      && s.failures.Total() == s.counts.FailedRuns()
      && s.counts.TotalCases() == |Filter(observations, MatchesSlice(d))|
      && s.counts.AmbiguousCases() + s.counts.IdentifiableCases() == s.counts.TotalCases()
  {
    EachIsConsistent(observations);
    SliceFailures(observations, d);
    SlicePartition(observations, d);
  }
}
