/** The denominators of a truth set, for any number of pairs
    (src/witnessgap/workspace100/truth.py:777-864). */
module Denominators {
  import opened Model
  import opened Order
  import opened Permutations
  import opened Attribution
  import opened Certificates
  import opened Records
  import opened Views
  import opened Projection
  import opened Projector
  import opened Routing
  import opened Routes
  import opened Verdicts
  import opened Truth
  import opened RouteCases
  import opened TruthSet

  // ---------- what is counted ----------

  function OfView(v: ViewKind): TruthCase -> bool {
    (c: TruthCase) => c.publicCase.view == v
  }

  function OfTemplate(t: TemplateId): TruthCase -> bool {
    (c: TruthCase) => c.publicCase.templateId == t
  }

  function OfSplit(split: Split): TruthCase -> bool {
    (c: TruthCase) => c.publicCase.split == split
  }

  function OfKind(kind: VerdictKind): TruthCase -> bool {
    (c: TruthCase) => c.certificate.diagnosis.kind == kind
  }

  function OfFamily(family: Option<TargetFamily>): TruthCase -> bool {
    (c: TruthCase) => c.certificate.diagnosis.targetFamily == family
  }

  function OpenTo(n: nat): TruthCase -> bool {
    (c: TruthCase) => |c.certificate.compatible| == n
  }

  function Unwitnessed(): TruthCase -> bool {
    (c: TruthCase) => c.minimalWitnesses == None
  }

  function OfPair(pairId: string): TruthCase -> bool {
    (c: TruthCase) => c.pairId == pairId
  }

  function Both<T>(p: T -> bool, q: T -> bool): T -> bool {
    (x: T) => p(x) && q(x)
  }

  function RootOfTruth(c: TruthCase): seq<PanelEntry> {
    c.certificate.panelRoot
  }

  function HasRoot(root: seq<PanelEntry>): TruthCase -> bool {
    (c: TruthCase) => RootOfTruth(c) == root
  }

  function NamesCompletion(commitment: string): TruthCase -> bool {
    (c: TruthCase) => commitment in c.certificate.compatible
  }

  function DigestOfTruth(c: TruthCase): string {
    c.digest
  }

  function CertificateOfTruth(c: TruthCase): Certificate {
    c.certificate
  }

  function RouteTemplate(t: TemplateId): PairRoute -> bool {
    (r: PairRoute) => r.templateId == t
  }

  function RouteSplit(split: Split): PairRoute -> bool {
    (r: PairRoute) => r.split == split
  }

  // ---------- the validators ----------

  /** Two cases of a pair under an informative view, one under a neutral view. */
  function CasesShown(v: ViewKind): nat {
    if Neutral(v) then 1 else 2
  }

  const FAMILIES: set<Option<TargetFamily>> := {None, Some(ENVIRONMENT_FAMILY), Some(POLICY_FAMILY)}

  /** `_validate_truth_set_counts`: distinct cases, and the totals. */
  ghost predicate ValidTotals(truth: TruthSet, pairs: nat) {
    var cases := truth.cases;
    && |truth.routes| == pairs && |cases| == 6 * pairs
    && Distinct(Apply(cases, DigestOfTruth)) && Distinct(Apply(cases, CertificateOfTruth))
    && (forall v :: |Filter(cases, OfView(v))| == CasesShown(v) * pairs)
    && (forall t :: |Filter(cases, OfTemplate(t))| == 6 * |Filter(truth.routes, RouteTemplate(t))|)
    && (forall s :: |Filter(cases, OfSplit(s))| == 6 * |Filter(truth.routes, RouteSplit(s))|)
    && |Filter(cases, OfKind(NotIdentifiable))| == 2 * pairs
    && |Filter(cases, OfKind(IdentifiedSingleton))| == 4 * pairs
    && (forall f :: f in FAMILIES ==> |Filter(cases, OfFamily(f))| == 2 * pairs)
  }

  /** `_validate_per_pair_counts`: the six-case matrix of one pair. */
  ghost predicate PairMatrix(cases: seq<TruthCase>, pairId: string) {
    && |Filter(cases, OfPair(pairId))| == 6
    && (forall v :: |Filter(cases, Both(OfPair(pairId), OfView(v)))| == CasesShown(v))
    && (forall f :: f in FAMILIES ==> |Filter(cases, Both(OfPair(pairId), OfFamily(f)))| == 2)
    && |Elements(Apply(Filter(cases, OfPair(pairId)), RootOfTruth))| == 3
  }

  /** `_validate_certificate_multiplicities`: panel roots used twice, completions
      named four times, and what the cases leave open. */
  ghost predicate ValidMultiplicities(truth: TruthSet, pairs: nat) {
    var cases := truth.cases;
    && |Elements(Apply(cases, RootOfTruth))| == 3 * pairs
    && (forall c :: c in cases ==> |Filter(cases, HasRoot(RootOfTruth(c)))| == 2)
    && (forall r :: r in truth.routes ==>
          && |Filter(cases, NamesCompletion(r.left.commitment))| == 4
          && |Filter(cases, NamesCompletion(r.right.commitment))| == 4)
    && |Filter(cases, OpenTo(1))| == 4 * pairs && |Filter(cases, OpenTo(2))| == 2 * pairs
    && |Filter(cases, Unwitnessed())| == 2 * pairs
  }

  ghost predicate ValidCounts(truth: TruthSet, pairs: nat) {
    && ValidTotals(truth, pairs)
    && (forall r :: r in truth.routes ==> PairMatrix(truth.cases, r.pairId))
    && ValidMultiplicities(truth, pairs)
  }

  /** `Workspace100TruthSet.validate` */
  ghost predicate ValidTruthSet(protocol: Protocol, truth: TruthSet, pairs: nat) {
    && TruthOrder(truth) && BindsProjection(truth)
    && ValidRoutes(protocol, truth.routes) && ValidCases(protocol, truth)
    && ValidCounts(truth, pairs)
  }

  // ---------- counting by slot ----------

  function One(b: bool): nat {
    if b then 1 else 0
  }

  /** In how many of the six slots `h` holds. */
  function SlotsWhere(h: Slot -> bool): nat {
    One(h((true, TraceOnly))) + One(h((true, OwnerProbe))) + One(h((true, EpochProbe)))
    + One(h((true, RefreshReceipt))) + One(h((false, EpochProbe))) + One(h((false, RefreshReceipt)))
  }

  function AtView(v: ViewKind): Slot -> bool {
    (s: Slot) => s.1 == v
  }

  function AtNeutral(neutral: bool): Slot -> bool {
    (s: Slot) => Neutral(s.1) == neutral
  }

  function AtSide(left: bool): Slot -> bool {
    (s: Slot) => !Neutral(s.1) && s.0 == left
  }

  function LeavesOpen(left: bool): Slot -> bool {
    (s: Slot) => Neutral(s.1) || s.0 == left
  }

  function Everywhere(b: bool): Slot -> bool {
    (s: Slot) => b
  }

  lemma SlotCounts(v: ViewKind, left: bool)
    ensures SlotsWhere(AtView(v)) == CasesShown(v)
    ensures SlotsWhere(AtNeutral(true)) == 2 && SlotsWhere(AtNeutral(false)) == 4
    ensures SlotsWhere(AtSide(left)) == 2 && SlotsWhere(LeavesOpen(left)) == 4
    ensures SlotsWhere(Everywhere(true)) == 6 && SlotsWhere(Everywhere(false)) == 0
  {
  }

  /** `p` holds of the truth of a slot exactly if `h` holds of the slot. */
  ghost predicate ReadsAs(f: Slot -> TruthCase, p: TruthCase -> bool, h: Slot -> bool) {
    forall s: Slot :: p(f(s)) <==> h(s)
  }

  lemma FilterHead<T(!new)>(x: T, s: seq<T>, p: T -> bool)
    ensures |Filter([x] + s, p)| == One(p(x)) + |Filter(s, p)|
  {
    assert ([x] + s)[1..] == s;
  }

  lemma SixAsHeads<T>(a: T, b: T, c: T, d: T, e: T, f: T)
    ensures [a, b, c, d, e, f] == [a] + ([b] + ([c] + ([d] + ([e] + ([f] + [])))))
  {
  }

  lemma FilterOfSix<T(!new)>(a: T, b: T, c: T, d: T, e: T, f: T, p: T -> bool)
    ensures |Filter([a, b, c, d, e, f], p)| == One(p(a)) + One(p(b)) + One(p(c)) + One(p(d)) + One(p(e)) + One(p(f))
  {
    SixAsHeads(a, b, c, d, e, f);
    FilterHead(a, [b] + ([c] + ([d] + ([e] + ([f] + [])))), p);
    FilterHead(b, [c] + ([d] + ([e] + ([f] + []))), p);
    FilterHead(c, [d] + ([e] + ([f] + [])), p);
    FilterHead(d, [e] + ([f] + []), p);
    FilterHead(e, [f] + [], p);
    FilterHead(f, [], p);
  }

  lemma CountSlots(f: Slot -> TruthCase, p: TruthCase -> bool, h: Slot -> bool)
    requires ReadsAs(f, p, h)
    ensures |Filter(Apply(SIX_SLOTS, f), p)| == SlotsWhere(h)
  {
    SixOf(f);
    FilterOfSix(f((true, TraceOnly)), f((true, OwnerProbe)), f((true, EpochProbe)), f((true, RefreshReceipt)),
                f((false, EpochProbe)), f((false, RefreshReceipt)), p);
  }

  lemma CountPair(protocol: Protocol, m: PairMaterial, p: TruthCase -> bool, h: Slot -> bool)
    requires ReadsAs(TruthAt(protocol, m), p, h)
    ensures |Filter(PairTruths(protocol)(m), p)| == SlotsWhere(h)
  {
    CountSlots(TruthAt(protocol, m), p, h);
  }

  lemma SortKeepsCount<T(!new)>(le: (T, T) -> bool, s: seq<T>, p: T -> bool)
    ensures |Filter(Sort(le, s), p)| == |Filter(s, p)|
  {
    FilterPermutation(Sort(le, s), s, p);
  }

  /** Every pair for which `q` holds contributes `c` cases, and no other pair does. */
  lemma CountTruths(protocol: Protocol, ms: seq<PairMaterial>, p: TruthCase -> bool, q: PairMaterial -> bool, c: nat)
    requires forall m :: m in ms ==> |Filter(PairTruths(protocol)(m), p)| == if q(m) then c else 0
    ensures |Filter(TruthFor(protocol, ms).cases, p)| == c * |Filter(ms, q)|
  {
    FlatCount(ms, PairTruths(protocol), p, q, c);
    SortKeepsCount(ByKey(TruthKey), Flat(ms, PairTruths(protocol)), p);
  }

  function Always(): PairMaterial -> bool {
    (m: PairMaterial) => true
  }

  lemma CountEvery(protocol: Protocol, ms: seq<PairMaterial>, p: TruthCase -> bool, c: nat)
    requires forall m :: m in ms ==> |Filter(PairTruths(protocol)(m), p)| == c
    ensures |Filter(TruthFor(protocol, ms).cases, p)| == c * |ms|
  {
    CountTruths(protocol, ms, p, Always(), c);
    FilterEverything(ms, Always());
  }

  lemma {:induction false} NothingKept<T(!new)>(s: seq<T>, p: T -> bool, x: T)
    requires |Filter(s, p)| == 0 && x in s
    ensures !p(x)
  {
    if s[0] != x {
      NothingKept(s[1..], p, x);
    }
  }

  /** Only the i-th part contributes. */
  lemma FlatOnly<T(!new)>(ms: seq<PairMaterial>, part: PairMaterial -> seq<T>, i: nat, p: T -> bool, c: nat)
    requires i < |ms|
    requires forall j :: 0 <= j < |ms| ==> |Filter(part(ms[j]), p)| == if j == i then c else 0
    ensures |Filter(Flat(ms, part), p)| == c
  {
    forall j, x | 0 <= j < |ms| && j != i && x in part(ms[j]) ensures !p(x) {
      NothingKept(part(ms[j]), p, x);
    }
    FilterOnePair(ms, part, p, i);
  }

  lemma CountOnly(protocol: Protocol, ms: seq<PairMaterial>, i: nat, p: TruthCase -> bool, c: nat)
    requires i < |ms|
    requires forall j :: 0 <= j < |ms| ==> |Filter(PairTruths(protocol)(ms[j]), p)| == if j == i then c else 0
    ensures |Filter(TruthFor(protocol, ms).cases, p)| == c
  {
    FlatOnly(ms, PairTruths(protocol), i, p, c);
    SortKeepsCount(ByKey(TruthKey), Flat(ms, PairTruths(protocol)), p);
  }

  // ---------- what the truth of a slot says ----------

  lemma TruthSays(protocol: Protocol, m: PairMaterial, s: Slot)
    ensures var c := TruthAt(protocol, m)(s);
      && c.publicCase.view == s.1 && c.publicCase.templateId == m.templateId && c.publicCase.split == m.split
      && c.pairId == m.pairId && c.certificate == CertificateOf(m, s.0, s.1)
      && (c.minimalWitnesses == None <==> Neutral(s.1))
  {
    SlotShows(m, s);
  }

  lemma CertificateSays(m: PairMaterial, s: Slot)
    ensures var c := CertificateOf(m, s.0, s.1);
      && c.diagnosis.kind == (if Neutral(s.1) then NotIdentifiable else IdentifiedSingleton)
      && c.diagnosis.targetFamily == (if Neutral(s.1) then None else Some(SideOf(m, s.0).panel.targetFamily))
      && c.compatible == (if Neutral(s.1) then [m.left.commitment, m.right.commitment] else [SideOf(m, s.0).commitment])
      && c.panelRoot == RootFor(m, s.0, s.1)
  {
  }

  lemma ReadsView(protocol: Protocol, m: PairMaterial, v: ViewKind)
    ensures ReadsAs(TruthAt(protocol, m), OfView(v), AtView(v))
  {
    forall s: Slot ensures OfView(v)(TruthAt(protocol, m)(s)) <==> AtView(v)(s) {
      TruthSays(protocol, m, s);
    }
  }

  lemma ReadsTemplate(protocol: Protocol, m: PairMaterial, t: TemplateId)
    ensures ReadsAs(TruthAt(protocol, m), OfTemplate(t), Everywhere(m.templateId == t))
  {
    forall s: Slot ensures OfTemplate(t)(TruthAt(protocol, m)(s)) <==> m.templateId == t {
      TruthSays(protocol, m, s);
    }
  }

  lemma ReadsSplit(protocol: Protocol, m: PairMaterial, split: Split)
    ensures ReadsAs(TruthAt(protocol, m), OfSplit(split), Everywhere(m.split == split))
  {
    forall s: Slot ensures OfSplit(split)(TruthAt(protocol, m)(s)) <==> m.split == split {
      TruthSays(protocol, m, s);
    }
  }

  lemma ReadsKind(protocol: Protocol, m: PairMaterial, neutral: bool)
    ensures ReadsAs(
      TruthAt(protocol, m), OfKind(if neutral then NotIdentifiable else IdentifiedSingleton), AtNeutral(neutral))
  {
    var p := OfKind(if neutral then NotIdentifiable else IdentifiedSingleton);
    forall s: Slot ensures p(TruthAt(protocol, m)(s)) <==> AtNeutral(neutral)(s) {
      TruthSays(protocol, m, s);
      CertificateSays(m, s);
    }
  }

  /** The slots whose verdict is a given family. */
  function FamilySlots(m: PairMaterial, family: Option<TargetFamily>): Slot -> bool {
    if family == None then AtNeutral(true) else AtSide(Some(m.left.panel.targetFamily) == family)
  }

  lemma ReadsFamily(protocol: Protocol, m: PairMaterial, family: Option<TargetFamily>)
    requires BalancedTargets(m.left, m.right) && family in FAMILIES
    ensures ReadsAs(TruthAt(protocol, m), OfFamily(family), FamilySlots(m, family))
  {
    OppositeTargets(m);
    SideTarget(m, true);
    forall s: Slot ensures OfFamily(family)(TruthAt(protocol, m)(s)) <==> FamilySlots(m, family)(s) {
      TruthSays(protocol, m, s);
      CertificateSays(m, s);
    }
  }

  lemma ReadsOpen(protocol: Protocol, m: PairMaterial, neutral: bool)
    ensures ReadsAs(TruthAt(protocol, m), OpenTo(if neutral then 2 else 1), AtNeutral(neutral))
  {
    var p := OpenTo(if neutral then 2 else 1);
    forall s: Slot ensures p(TruthAt(protocol, m)(s)) <==> AtNeutral(neutral)(s) {
      TruthSays(protocol, m, s);
      CertificateSays(m, s);
    }
  }

  lemma ReadsWitnesses(protocol: Protocol, m: PairMaterial)
    ensures ReadsAs(TruthAt(protocol, m), Unwitnessed(), AtNeutral(true))
  {
    forall s: Slot ensures Unwitnessed()(TruthAt(protocol, m)(s)) <==> AtNeutral(true)(s) {
      TruthSays(protocol, m, s);
    }
  }

  lemma ReadsPair(protocol: Protocol, m: PairMaterial, pairId: string, p: TruthCase -> bool, h: Slot -> bool)
    requires ReadsAs(TruthAt(protocol, m), p, h)
    ensures ReadsAs(TruthAt(protocol, m), Both(OfPair(pairId), p), if m.pairId == pairId then h else Everywhere(false))
    ensures ReadsAs(TruthAt(protocol, m), OfPair(pairId), Everywhere(m.pairId == pairId))
  {
    var q := Both(OfPair(pairId), p);
    forall s: Slot ensures OfPair(pairId)(TruthAt(protocol, m)(s)) <==> m.pairId == pairId {
      TruthSays(protocol, m, s);
    }
    forall s: Slot ensures q(TruthAt(protocol, m)(s)) <==> m.pairId == pairId && h(s) {
      assert OfPair(pairId)(TruthAt(protocol, m)(s)) <==> m.pairId == pairId;
    }
  }

  /** The slots that share the panel root of slot `s`. */
  function RootSlots(s: Slot): Slot -> bool {
    if Neutral(s.1) then AtNeutral(true) else AtSide(s.0)
  }

  lemma SameRoot(m: PairMaterial, s: Slot, s': Slot)
    ensures RootFor(m, s'.0, s'.1) == RootFor(m, s.0, s.1) <==> RootSlots(s)(s')
  {
    var a, b := RootFor(m, s.0, s.1), RootFor(m, s'.0, s'.1);
    assert a[0].compatible == (s.0 || Neutral(s.1)) && a[1].compatible == (!s.0 || Neutral(s.1));
    assert b[0].compatible == (s'.0 || Neutral(s'.1)) && b[1].compatible == (!s'.0 || Neutral(s'.1));
  }

  lemma ReadsRoot(protocol: Protocol, m: PairMaterial, s: Slot)
    ensures ReadsAs(TruthAt(protocol, m), HasRoot(RootFor(m, s.0, s.1)), RootSlots(s))
  {
    var p := HasRoot(RootFor(m, s.0, s.1));
    forall s': Slot ensures p(TruthAt(protocol, m)(s')) <==> RootSlots(s)(s') {
      TruthSays(protocol, m, s');
      CertificateSays(m, s');
      SameRoot(m, s, s');
    }
  }

  lemma OtherRoot(protocol: Protocol, m: PairMaterial, other: PairMaterial, s: Slot)
    requires OtherCommitments(m, other)
    ensures ReadsAs(TruthAt(protocol, other), HasRoot(RootFor(m, s.0, s.1)), Everywhere(false))
  {
    var root := RootFor(m, s.0, s.1);
    forall s': Slot ensures !HasRoot(root)(TruthAt(protocol, other)(s')) {
      TruthSays(protocol, other, s');
      CertificateSays(other, s');
      assert root[0].commitment == m.left.commitment;
      assert RootFor(other, s'.0, s'.1)[0].commitment == other.left.commitment;
      assert m.left.commitment in {m.left.commitment, m.right.commitment};
    }
  }

  lemma ReadsName(protocol: Protocol, m: PairMaterial, left: bool)
    requires m.left.commitment != m.right.commitment
    ensures ReadsAs(TruthAt(protocol, m), NamesCompletion(SideOf(m, left).commitment), LeavesOpen(left))
  {
    var p := NamesCompletion(SideOf(m, left).commitment);
    forall s: Slot ensures p(TruthAt(protocol, m)(s)) <==> LeavesOpen(left)(s) {
      TruthSays(protocol, m, s);
      CertificateSays(m, s);
    }
  }

  lemma OtherName(protocol: Protocol, m: PairMaterial, other: PairMaterial, left: bool)
    requires OtherCommitments(m, other)
    ensures ReadsAs(TruthAt(protocol, other), NamesCompletion(SideOf(m, left).commitment), Everywhere(false))
  {
    var x := SideOf(m, left).commitment;
    assert x in {m.left.commitment, m.right.commitment};
    forall s: Slot ensures !NamesCompletion(x)(TruthAt(protocol, other)(s)) {
      TruthSays(protocol, other, s);
      CertificateSays(other, s);
    }
  }

  // ---------- totals ----------

  lemma CountEach(protocol: Protocol, ms: seq<PairMaterial>, p: TruthCase -> bool, h: Slot -> bool)
    requires forall m :: m in ms ==> ReadsAs(TruthAt(protocol, m), p, h)
    ensures |Filter(TruthFor(protocol, ms).cases, p)| == SlotsWhere(h) * |ms|
  {
    forall m | m in ms ensures |Filter(PairTruths(protocol)(m), p)| == SlotsWhere(h) {
      CountPair(protocol, m, p, h);
    }
    CountEvery(protocol, ms, p, SlotsWhere(h));
  }

  lemma ViewTotal(protocol: Protocol, ms: seq<PairMaterial>, v: ViewKind)
    ensures |Filter(TruthFor(protocol, ms).cases, OfView(v))| == CasesShown(v) * |ms|
  {
    forall m | m in ms ensures ReadsAs(TruthAt(protocol, m), OfView(v), AtView(v)) {
      ReadsView(protocol, m, v);
    }
    CountEach(protocol, ms, OfView(v), AtView(v));
    SlotCounts(v, true);
  }

  lemma KindTotal(protocol: Protocol, ms: seq<PairMaterial>, neutral: bool)
    ensures |Filter(TruthFor(protocol, ms).cases, OfKind(if neutral then NotIdentifiable else IdentifiedSingleton))|
      == (if neutral then 2 else 4) * |ms|
  {
    var p := OfKind(if neutral then NotIdentifiable else IdentifiedSingleton);
    forall m | m in ms ensures ReadsAs(TruthAt(protocol, m), p, AtNeutral(neutral)) {
      ReadsKind(protocol, m, neutral);
    }
    CountEach(protocol, ms, p, AtNeutral(neutral));
    SlotCounts(TraceOnly, true);
  }

  lemma OpenTotal(protocol: Protocol, ms: seq<PairMaterial>, neutral: bool)
    ensures |Filter(TruthFor(protocol, ms).cases, OpenTo(if neutral then 2 else 1))|
      == (if neutral then 2 else 4) * |ms|
  {
    var p := OpenTo(if neutral then 2 else 1);
    forall m | m in ms ensures ReadsAs(TruthAt(protocol, m), p, AtNeutral(neutral)) {
      ReadsOpen(protocol, m, neutral);
    }
    CountEach(protocol, ms, p, AtNeutral(neutral));
    SlotCounts(TraceOnly, true);
  }

  lemma WitnessTotal(protocol: Protocol, ms: seq<PairMaterial>)
    ensures |Filter(TruthFor(protocol, ms).cases, Unwitnessed())| == 2 * |ms|
  {
    forall m | m in ms ensures ReadsAs(TruthAt(protocol, m), Unwitnessed(), AtNeutral(true)) {
      ReadsWitnesses(protocol, m);
    }
    CountEach(protocol, ms, Unwitnessed(), AtNeutral(true));
    SlotCounts(TraceOnly, true);
  }

  lemma FamilyCount(protocol: Protocol, m: PairMaterial, family: Option<TargetFamily>)
    requires BalancedTargets(m.left, m.right) && family in FAMILIES
    ensures |Filter(PairTruths(protocol)(m), OfFamily(family))| == 2
  {
    ReadsFamily(protocol, m, family);
    FamilySlotsAreTwo(m, family);
    CountPair(protocol, m, OfFamily(family), FamilySlots(m, family));
  }

  lemma FamilySlotsAreTwo(m: PairMaterial, family: Option<TargetFamily>)
    ensures SlotsWhere(FamilySlots(m, family)) == 2
  {
    SlotCounts(TraceOnly, Some(m.left.panel.targetFamily) == family);
  }

  lemma FamilyTotal(protocol: Protocol, ms: seq<PairMaterial>, family: Option<TargetFamily>)
    requires family in FAMILIES && forall m :: m in ms ==> BalancedTargets(m.left, m.right)
    ensures |Filter(TruthFor(protocol, ms).cases, OfFamily(family))| == 2 * |ms|
  {
    forall m | m in ms ensures |Filter(PairTruths(protocol)(m), OfFamily(family))| == 2 {
      FamilyCount(protocol, m, family);
    }
    CountEvery(protocol, ms, OfFamily(family), 2);
  }

  function InTemplate(t: TemplateId): PairMaterial -> bool {
    (m: PairMaterial) => m.templateId == t
  }

  function InSplit(split: Split): PairMaterial -> bool {
    (m: PairMaterial) => m.split == split
  }

  lemma CountRoutes(protocol: Protocol, ms: seq<PairMaterial>, q: PairMaterial -> bool, r: PairRoute -> bool)
    requires forall m :: m in ms ==> (q(m) <==> r(RouteFor(protocol)(m)))
    ensures |Filter(ms, q)| == |Filter(Apply(ms, RouteFor(protocol)), r)|
  {
    ApplyFilter(ms, RouteFor(protocol), q, r);
  }

  /** A test that is constant on a pair keeps all of its cases or none. */
  lemma CountWhole(protocol: Protocol, m: PairMaterial, p: TruthCase -> bool, b: bool)
    requires ReadsAs(TruthAt(protocol, m), p, Everywhere(b))
    ensures |Filter(PairTruths(protocol)(m), p)| == if b then 6 else 0
  {
    CountPair(protocol, m, p, Everywhere(b));
    SlotCounts(TraceOnly, true);
  }

  lemma TemplateCount(protocol: Protocol, m: PairMaterial, t: TemplateId)
    ensures |Filter(PairTruths(protocol)(m), OfTemplate(t))| == if m.templateId == t then 6 else 0
  {
    ReadsTemplate(protocol, m, t);
    CountWhole(protocol, m, OfTemplate(t), m.templateId == t);
  }

  lemma SplitCount(protocol: Protocol, m: PairMaterial, split: Split)
    ensures |Filter(PairTruths(protocol)(m), OfSplit(split))| == if m.split == split then 6 else 0
  {
    ReadsSplit(protocol, m, split);
    CountWhole(protocol, m, OfSplit(split), m.split == split);
  }

  lemma TemplateCases(protocol: Protocol, ms: seq<PairMaterial>, t: TemplateId)
    ensures |Filter(TruthFor(protocol, ms).cases, OfTemplate(t))| == 6 * |Filter(ms, InTemplate(t))|
  {
    forall m | m in ms ensures |Filter(PairTruths(protocol)(m), OfTemplate(t))| == if InTemplate(t)(m) then 6 else 0 {
      TemplateCount(protocol, m, t);
    }
    CountTruths(protocol, ms, OfTemplate(t), InTemplate(t), 6);
  }

  lemma TemplateTotal(protocol: Protocol, ms: seq<PairMaterial>, t: TemplateId)
    ensures |Filter(TruthFor(protocol, ms).cases, OfTemplate(t))|
      == 6 * |Filter(TruthFor(protocol, ms).routes, RouteTemplate(t))|
  {
    TemplateCases(protocol, ms, t);
    CountRoutes(protocol, ms, InTemplate(t), RouteTemplate(t));
  }

  lemma SplitCases(protocol: Protocol, ms: seq<PairMaterial>, split: Split)
    ensures |Filter(TruthFor(protocol, ms).cases, OfSplit(split))| == 6 * |Filter(ms, InSplit(split))|
  {
    forall m | m in ms ensures |Filter(PairTruths(protocol)(m), OfSplit(split))| == if InSplit(split)(m) then 6 else 0 {
      SplitCount(protocol, m, split);
    }
    CountTruths(protocol, ms, OfSplit(split), InSplit(split), 6);
  }

  lemma SplitTotal(protocol: Protocol, ms: seq<PairMaterial>, split: Split)
    ensures |Filter(TruthFor(protocol, ms).cases, OfSplit(split))|
      == 6 * |Filter(TruthFor(protocol, ms).routes, RouteSplit(split))|
  {
    SplitCases(protocol, ms, split);
    CountRoutes(protocol, ms, InSplit(split), RouteSplit(split));
  }

  lemma SixEach(protocol: Protocol, ms: seq<PairMaterial>)
    ensures |TruthFor(protocol, ms).cases| == 6 * |ms|
  {
    var listed := Flat(ms, PairTruths(protocol));
    forall m | m in ms ensures |PairTruths(protocol)(m)| == 6 {
    }
    FlatLength(ms, PairTruths(protocol), 6);
    SameMultiset(Sort(ByKey(TruthKey), listed), listed);
  }

  // ---------- no case twice ----------

  /** A case that binds the evidence it shows, by digest and certificate. */
  ghost predicate BindsEvidence(protocol: Protocol, c: TruthCase) {
    && c.digest == protocol.digest(c.publicCase.evidence)
    && c.certificate.evidence == c.publicCase.evidence
  }

  lemma TruthsDiffer(protocol: Protocol, a: TruthCase, b: TruthCase)
    requires BindsEvidence(protocol, a) && BindsEvidence(protocol, b)
    requires !SameDigest(protocol, a.publicCase, b.publicCase)
    ensures a.digest != b.digest && a.certificate != b.certificate
  {
  }

  lemma TruthBinds(protocol: Protocol, ms: seq<PairMaterial>, c: TruthCase)
    requires SoundMaterials(protocol, ms) && c in TruthFor(protocol, ms).cases
    ensures BindsEvidence(protocol, c)
  {
    SortKeeps(ByKey(TruthKey), Flat(ms, PairTruths(protocol)), c);
    var i, s := TruthFrom(protocol, ms, c);
    TruthIsSound(protocol, ms[i], protocol.templates(ms[i].templateId), s);
  }

  lemma PublicsDiffer(protocol: Protocol, ms: seq<PairMaterial>, i: nat, j: nat)
    requires protocol.Binding() && Regular(ms) && i < j < |TruthFor(protocol, ms).cases|
    ensures var cases := TruthFor(protocol, ms).cases; !SameDigest(protocol, cases[i].publicCase, cases[j].publicCase)
  {
    TruthKeepsCases(protocol, ms);
    ViewsKeepCases(protocol, ms);
    CasesDiffer(protocol, ViewsOf(protocol, ms), i, j);
  }

  lemma CasesDiffer(protocol: Protocol, views: EvidenceViews, i: nat, j: nat)
    requires UniqueCases(protocol, views) && i < j < |views.cases|
    ensures !SameDigest(protocol, views.cases[i], views.cases[j])
  {
    assert views.cases[i] != views.cases[j];
  }

  /** No digest and no certificate is used twice. */
  lemma TruthsAreDistinct(protocol: Protocol, ms: seq<PairMaterial>)
    requires SoundMaterials(protocol, ms)
    ensures Distinct(Apply(TruthFor(protocol, ms).cases, DigestOfTruth))
    ensures Distinct(Apply(TruthFor(protocol, ms).cases, CertificateOfTruth))
  {
    var cases := TruthFor(protocol, ms).cases;
    forall i, j | 0 <= i < j < |cases|
      ensures cases[i].digest != cases[j].digest && cases[i].certificate != cases[j].certificate
    {
      TruthBinds(protocol, ms, cases[i]);
      TruthBinds(protocol, ms, cases[j]);
      PublicsDiffer(protocol, ms, i, j);
      TruthsDiffer(protocol, cases[i], cases[j]);
    }
  }

  // ---------- the matrix of one pair ----------

  lemma PairCount(protocol: Protocol, m: PairMaterial, pairId: string, p: TruthCase -> bool, h: Slot -> bool)
    requires ReadsAs(TruthAt(protocol, m), p, h)
    ensures |Filter(PairTruths(protocol)(m), Both(OfPair(pairId), p))|
      == if m.pairId == pairId then SlotsWhere(h) else 0
    ensures |Filter(PairTruths(protocol)(m), OfPair(pairId))| == if m.pairId == pairId then 6 else 0
  {
    ReadsPair(protocol, m, pairId, p, h);
    CountPair(protocol, m, Both(OfPair(pairId), p), if m.pairId == pairId then h else Everywhere(false));
    SlotCounts(TraceOnly, true);
    CountWhole(protocol, m, OfPair(pairId), m.pairId == pairId);
  }

  /** What one pair contributes under a test is what the whole truth has of it. */
  lemma CountInPair(protocol: Protocol, ms: seq<PairMaterial>, i: nat, p: TruthCase -> bool, c: nat)
    requires Regular(ms) && i < |ms|
    requires forall j :: 0 <= j < |ms| ==>
      |Filter(PairTruths(protocol)(ms[j]), p)| == if ms[j].pairId == ms[i].pairId then c else 0
    ensures |Filter(TruthFor(protocol, ms).cases, p)| == c
  {
    forall j | 0 <= j < |ms| && j != i ensures ms[j].pairId != ms[i].pairId {
      assert Apart(ms[j], ms[i]);
    }
    CountOnly(protocol, ms, i, p, c);
  }

  lemma PairHasSix(protocol: Protocol, ms: seq<PairMaterial>, i: nat)
    requires Regular(ms) && i < |ms|
    ensures |Filter(TruthFor(protocol, ms).cases, OfPair(ms[i].pairId))| == 6
  {
    var id := ms[i].pairId;
    forall j | 0 <= j < |ms|
      ensures |Filter(PairTruths(protocol)(ms[j]), OfPair(id))| == if ms[j].pairId == id then 6 else 0
    {
      ReadsView(protocol, ms[j], TraceOnly);
      PairCount(protocol, ms[j], id, OfView(TraceOnly), AtView(TraceOnly));
    }
    CountInPair(protocol, ms, i, OfPair(id), 6);
  }

  lemma PairHasViews(protocol: Protocol, ms: seq<PairMaterial>, i: nat, v: ViewKind)
    requires Regular(ms) && i < |ms|
    ensures |Filter(TruthFor(protocol, ms).cases, Both(OfPair(ms[i].pairId), OfView(v)))| == CasesShown(v)
  {
    var id := ms[i].pairId;
    var p := Both(OfPair(id), OfView(v));
    SlotCounts(v, true);
    forall j | 0 <= j < |ms|
      ensures |Filter(PairTruths(protocol)(ms[j]), p)| == if ms[j].pairId == id then CasesShown(v) else 0
    {
      ReadsView(protocol, ms[j], v);
      PairCount(protocol, ms[j], id, OfView(v), AtView(v));
    }
    CountInPair(protocol, ms, i, p, CasesShown(v));
  }

  lemma PairHasFamilies(protocol: Protocol, ms: seq<PairMaterial>, i: nat, family: Option<TargetFamily>)
    requires Regular(ms) && i < |ms| && family in FAMILIES && forall m :: m in ms ==> BalancedTargets(m.left, m.right)
    ensures |Filter(TruthFor(protocol, ms).cases, Both(OfPair(ms[i].pairId), OfFamily(family)))| == 2
  {
    var id := ms[i].pairId;
    var p := Both(OfPair(id), OfFamily(family));
    forall j | 0 <= j < |ms|
      ensures |Filter(PairTruths(protocol)(ms[j]), p)| == if ms[j].pairId == id then 2 else 0
    {
      FamilyInPair(protocol, ms[j], id, family);
    }
    CountInPair(protocol, ms, i, p, 2);
  }

  lemma FamilyInPair(protocol: Protocol, m: PairMaterial, pairId: string, family: Option<TargetFamily>)
    requires BalancedTargets(m.left, m.right) && family in FAMILIES
    ensures |Filter(PairTruths(protocol)(m), Both(OfPair(pairId), OfFamily(family)))|
      == if m.pairId == pairId then 2 else 0
  {
    ReadsFamily(protocol, m, family);
    FamilySlotsAreTwo(m, family);
    PairCount(protocol, m, pairId, OfFamily(family), FamilySlots(m, family));
  }

  // ---------- panel roots and completions ----------

  /** The panel root of a case occurs twice, and only in its own pair. */
  lemma RootIsUsedTwice(protocol: Protocol, ms: seq<PairMaterial>, i: nat, s: Slot)
    requires SoundMaterials(protocol, ms) && i < |ms|
    ensures |Filter(TruthFor(protocol, ms).cases, HasRoot(RootFor(ms[i], s.0, s.1)))| == 2
  {
    var p := HasRoot(RootFor(ms[i], s.0, s.1));
    forall j | 0 <= j < |ms| ensures |Filter(PairTruths(protocol)(ms[j]), p)| == if j == i then 2 else 0 {
      if j == i {
        RootsInPair(protocol, ms[i], s);
      } else {
        assert OtherCommitments(ms[i], ms[j]);
        OtherRoot(protocol, ms[i], ms[j], s);
        CountWhole(protocol, ms[j], p, false);
      }
    }
    CountOnly(protocol, ms, i, p, 2);
  }

  lemma RootsInPair(protocol: Protocol, m: PairMaterial, s: Slot)
    ensures |Filter(PairTruths(protocol)(m), HasRoot(RootFor(m, s.0, s.1)))| == 2
  {
    ReadsRoot(protocol, m, s);
    CountPair(protocol, m, HasRoot(RootFor(m, s.0, s.1)), RootSlots(s));
    SlotCounts(TraceOnly, s.0);
  }

  lemma CaseRoot(protocol: Protocol, ms: seq<PairMaterial>, c: TruthCase)
    requires SoundMaterials(protocol, ms) && c in TruthFor(protocol, ms).cases
    ensures |Filter(TruthFor(protocol, ms).cases, HasRoot(RootOfTruth(c)))| == 2
  {
    SortKeeps(ByKey(TruthKey), Flat(ms, PairTruths(protocol)), c);
    var i, s := TruthFrom(protocol, ms, c);
    TruthSays(protocol, ms[i], s);
    CertificateSays(ms[i], s);
    RootIsUsedTwice(protocol, ms, i, s);
  }

  /** If every root occurs twice, there are half as many roots as cases. */
  lemma HalfAsManyRoots(cases: seq<TruthCase>)
    requires forall c :: c in cases ==> |Filter(cases, HasRoot(RootOfTruth(c)))| == 2
    ensures |cases| == 2 * |Elements(Apply(cases, RootOfTruth))|
  {
    var roots := Apply(cases, RootOfTruth);
    forall x | x in roots ensures |Filter(roots, Is(x))| == 2 {
      var k :| 0 <= k < |roots| && roots[k] == x;
      assert x == RootOfTruth(cases[k]) && cases[k] in cases;
      ApplyFilter(cases, RootOfTruth, HasRoot(x), Is(x));
    }
    EvenMultiplicity(roots, 2);
  }

  /** Cases with one root belong to one pair. */
  lemma RootFixesPair(protocol: Protocol, ms: seq<PairMaterial>, a: TruthCase, b: TruthCase)
    requires SoundMaterials(protocol, ms) && RootOfTruth(a) == RootOfTruth(b)
    requires a in TruthFor(protocol, ms).cases && b in TruthFor(protocol, ms).cases
    ensures a.pairId == b.pairId
  {
    SortKeeps(ByKey(TruthKey), Flat(ms, PairTruths(protocol)), a);
    SortKeeps(ByKey(TruthKey), Flat(ms, PairTruths(protocol)), b);
    var i, s := TruthFrom(protocol, ms, a);
    var j, s' := TruthFrom(protocol, ms, b);
    TruthSays(protocol, ms[i], s);
    TruthSays(protocol, ms[j], s');
    CertificateSays(ms[i], s);
    CertificateSays(ms[j], s');
    if i != j {
      assert OtherCommitments(ms[i], ms[j]);
      RootsDiffer(ms[i], ms[j], s, s');
    }
  }

  lemma RootsDiffer(a: PairMaterial, b: PairMaterial, s: Slot, s': Slot)
    requires OtherCommitments(a, b)
    ensures RootFor(a, s.0, s.1) != RootFor(b, s'.0, s'.1)
  {
    assert RootFor(a, s.0, s.1)[0].commitment == a.left.commitment;
    assert RootFor(b, s'.0, s'.1)[0].commitment == b.left.commitment;
    assert a.left.commitment in {a.left.commitment, a.right.commitment};
  }

  lemma PairHasThreeRoots(protocol: Protocol, ms: seq<PairMaterial>, i: nat)
    requires SoundMaterials(protocol, ms) && i < |ms|
    ensures |Elements(Apply(Filter(TruthFor(protocol, ms).cases, OfPair(ms[i].pairId)), RootOfTruth))| == 3
  {
    var cases := TruthFor(protocol, ms).cases;
    var p := OfPair(ms[i].pairId);
    var own := Filter(cases, p);
    forall c | c in own ensures |Filter(own, HasRoot(RootOfTruth(c)))| == 2 {
      forall x | x in cases && HasRoot(RootOfTruth(c))(x) ensures p(x) {
        RootFixesPair(protocol, ms, x, c);
      }
      FilterNarrows(cases, p, HasRoot(RootOfTruth(c)));
      CaseRoot(protocol, ms, c);
    }
    HalfAsManyRoots(own);
    PairHasSix(protocol, ms, i);
  }

  /** A completion is named by the certificates that leave it open: two neutral
      ones and its own two. */
  lemma NamedFourTimes(protocol: Protocol, ms: seq<PairMaterial>, i: nat, left: bool)
    requires SoundMaterials(protocol, ms) && i < |ms|
    ensures |Filter(TruthFor(protocol, ms).cases, NamesCompletion(SideOf(ms[i], left).commitment))| == 4
  {
    var p := NamesCompletion(SideOf(ms[i], left).commitment);
    forall j | 0 <= j < |ms| ensures |Filter(PairTruths(protocol)(ms[j]), p)| == if j == i then 4 else 0 {
      if j == i {
        assert SoundTwins(ms[i], protocol.templates(ms[i].templateId));
        ReadsName(protocol, ms[i], left);
        CountPair(protocol, ms[i], p, LeavesOpen(left));
        SlotCounts(TraceOnly, left);
      } else {
        assert OtherCommitments(ms[i], ms[j]);
        OtherName(protocol, ms[i], ms[j], left);
        CountWhole(protocol, ms[j], p, false);
      }
    }
    CountOnly(protocol, ms, i, p, 4);
  }

  // ---------- the theorem ----------

  lemma SoundBalance(protocol: Protocol, ms: seq<PairMaterial>)
    requires SoundMaterials(protocol, ms)
    ensures forall m :: m in ms ==> BalancedTargets(m.left, m.right)
  {
    forall m | m in ms ensures BalancedTargets(m.left, m.right) {
      var i :| 0 <= i < |ms| && ms[i] == m;
      assert SoundTwins(ms[i], protocol.templates(ms[i].templateId));
    }
  }

  lemma TotalsAreValid(protocol: Protocol, ms: seq<PairMaterial>)
    requires SoundMaterials(protocol, ms)
    ensures ValidTotals(TruthFor(protocol, ms), |ms|)
  {
    SixEach(protocol, ms);
    TruthsAreDistinct(protocol, ms);
    forall v ensures |Filter(TruthFor(protocol, ms).cases, OfView(v))| == CasesShown(v) * |ms| {
      ViewTotal(protocol, ms, v);
    }
    forall t
      ensures |Filter(TruthFor(protocol, ms).cases, OfTemplate(t))|
        == 6 * |Filter(TruthFor(protocol, ms).routes, RouteTemplate(t))|
    {
      TemplateTotal(protocol, ms, t);
    }
    forall s
      ensures |Filter(TruthFor(protocol, ms).cases, OfSplit(s))|
        == 6 * |Filter(TruthFor(protocol, ms).routes, RouteSplit(s))|
    {
      SplitTotal(protocol, ms, s);
    }
    KindTotal(protocol, ms, true);
    KindTotal(protocol, ms, false);
    SoundBalance(protocol, ms);
    forall f | f in FAMILIES ensures |Filter(TruthFor(protocol, ms).cases, OfFamily(f))| == 2 * |ms| {
      FamilyTotal(protocol, ms, f);
    }
  }

  lemma MatrixIsValid(protocol: Protocol, ms: seq<PairMaterial>, i: nat)
    requires SoundMaterials(protocol, ms) && i < |ms|
    ensures PairMatrix(TruthFor(protocol, ms).cases, ms[i].pairId)
  {
    var cases, id := TruthFor(protocol, ms).cases, ms[i].pairId;
    PairHasSix(protocol, ms, i);
    forall v ensures |Filter(cases, Both(OfPair(id), OfView(v)))| == CasesShown(v) {
      PairHasViews(protocol, ms, i, v);
    }
    SoundBalance(protocol, ms);
    forall f | f in FAMILIES ensures |Filter(cases, Both(OfPair(id), OfFamily(f)))| == 2 {
      PairHasFamilies(protocol, ms, i, f);
    }
    PairHasThreeRoots(protocol, ms, i);
  }

  lemma RouteNamedFourTimes(protocol: Protocol, ms: seq<PairMaterial>, r: PairRoute)
    requires SoundMaterials(protocol, ms) && r in TruthFor(protocol, ms).routes
    ensures |Filter(TruthFor(protocol, ms).cases, NamesCompletion(r.left.commitment))| == 4
    ensures |Filter(TruthFor(protocol, ms).cases, NamesCompletion(r.right.commitment))| == 4
    ensures PairMatrix(TruthFor(protocol, ms).cases, r.pairId)
  {
    var m := ImageOf(ms, RouteFor(protocol), r);
    var i :| 0 <= i < |ms| && ms[i] == m;
    RouteNames(protocol, m);
    NamedFourTimes(protocol, ms, i, true);
    NamedFourTimes(protocol, ms, i, false);
    MatrixIsValid(protocol, ms, i);
  }

  lemma MultiplicitiesAreValid(protocol: Protocol, ms: seq<PairMaterial>)
    requires SoundMaterials(protocol, ms)
    ensures ValidMultiplicities(TruthFor(protocol, ms), |ms|)
  {
    var cases := TruthFor(protocol, ms).cases;
    forall c | c in cases ensures |Filter(cases, HasRoot(RootOfTruth(c)))| == 2 {
      CaseRoot(protocol, ms, c);
    }
    HalfAsManyRoots(cases);
    SixEach(protocol, ms);
    forall r | r in TruthFor(protocol, ms).routes
      ensures |Filter(cases, NamesCompletion(r.left.commitment))| == 4
      ensures |Filter(cases, NamesCompletion(r.right.commitment))| == 4
    {
      RouteNamedFourTimes(protocol, ms, r);
    }
    OpenTotal(protocol, ms, true);
    OpenTotal(protocol, ms, false);
    WitnessTotal(protocol, ms);
  }

  lemma CountsAreValid(protocol: Protocol, ms: seq<PairMaterial>)
    requires SoundMaterials(protocol, ms)
    ensures ValidCounts(TruthFor(protocol, ms), |ms|)
  {
    TotalsAreValid(protocol, ms);
    forall r | r in TruthFor(protocol, ms).routes ensures PairMatrix(TruthFor(protocol, ms).cases, r.pairId) {
      RouteNamedFourTimes(protocol, ms, r);
    }
    MultiplicitiesAreValid(protocol, ms);
  }

  /** For any number of admissible pairs, the truth passes every check on truth sets. */
  lemma {:induction false} TruthIsValid(protocol: Protocol, materials: seq<PairMaterial>)
    requires protocol.Binding() && Admissible(Good(protocol), Sort(ByKey(MaterialKey), materials))
    ensures ValidTruthSet(protocol, TruthFor(protocol, Sort(ByKey(MaterialKey), materials)), |materials|)
  {
    var ordered := Sort(ByKey(MaterialKey), materials);
    SameMultiset(ordered, materials);
    AdmissibleIsSound(protocol, ordered);
    TasksMatchManifests(materials);
    TruthIsOrdered(protocol, materials);
    TruthBindsProjection(protocol, ordered);
    RoutesAreValid(protocol, ordered);
    CasesAreValid(protocol, ordered);
    CountsAreValid(protocol, ordered);
  }
}
