/** The public cases of one truth route, looked up by digest
    (src/witnessgap/workspace100/truth.py:509-520). */
module RouteCases {
  import opened Model
  import opened Order
  import opened Permutations
  import opened Records
  import opened Views
  import opened Projection
  import opened Projector
  import opened Routing
  import opened Routes
  import opened Truth

  function DigestAt(protocol: Protocol): PublicCase -> string {
    (c: PublicCase) => protocol.digest(c.evidence)
  }

  function DigestOf(pair: (ViewKind, string)): string {
    pair.1
  }

  /** The digests that a route binds to its two sources. */
  function RouteDigests(route: PairRoute): set<string> {
    Elements(Apply(route.left.digests + route.right.digests, DigestOf))
  }

  /** `cases_by_digest.get(digest)` */
  function FindCase(protocol: Protocol, cases: seq<PublicCase>, digest: string): (c: Option<PublicCase>)
    ensures c.Some? ==> c.value in cases && protocol.digest(c.value.evidence) == digest
    ensures c.None? ==> forall k :: k in cases ==> protocol.digest(k.evidence) != digest
  {
    if cases == [] then None
    else if protocol.digest(cases[0].evidence) == digest then Some(cases[0])
    else FindCase(protocol, cases[1..], digest)
  }

  ghost predicate Available(protocol: Protocol, cases: seq<PublicCase>, digests: set<string>) {
    forall d :: d in digests ==> FindCase(protocol, cases, d).Some?
  }

  ghost predicate Picked(protocol: Protocol, cases: seq<PublicCase>, digests: set<string>, found: seq<PublicCase>) {
    && Distinct(found)
    && (forall k :: k in found ==> k in cases && DigestAt(protocol)(k) in digests)
    && forall d :: d in digests ==> FindCase(protocol, cases, d).Some? && FindCase(protocol, cases, d).value in found
  }

  lemma PickedMore(
      protocol: Protocol, cases: seq<PublicCase>, digests: set<string>, found: seq<PublicCase>, d: string,
      c: PublicCase)
    requires Picked(protocol, cases, digests, found) && d !in digests && FindCase(protocol, cases, d) == Some(c)
    ensures Picked(protocol, cases, digests + {d}, found + [c])
  {
    assert DigestAt(protocol)(c) == d;
    assert c !in found;
  }

  /** `_public_cases_for_route`: six digests, each with its case, in case order. */
  method PublicCasesForRoute(protocol: Protocol, route: PairRoute, cases: seq<PublicCase>)
    returns (r: Option<seq<PublicCase>>)
    ensures r.Some? <==> |RouteDigests(route)| == 6 && Available(protocol, cases, RouteDigests(route))
    ensures r.Some? ==> Picked(protocol, cases, RouteDigests(route), r.value)
    ensures r.Some? ==> Sorted(ByKey(CaseKey(protocol)), r.value)
  {
    var digests := RouteDigests(route);
    if |digests| != 6 {
      return None;
    }
    var pending, found := digests, [];
    while pending != {}
      invariant pending <= digests
      invariant Picked(protocol, cases, digests - pending, found)
      decreases |pending|
    {
      var d :| d in pending;
      var c := FindCase(protocol, cases, d);
      if c.None? {
        assert d in digests;
        return None;
      }
      PickedMore(protocol, cases, digests - pending, found, d, c.value);
      assert digests - (pending - {d}) == digests - pending + {d};
      pending, found := pending - {d}, found + [c.value];
    }
    assert digests - pending == digests;
    var le := ByKey(CaseKey(protocol));
    PickedSorted(protocol, cases, digests, found);
    r := Some(Sort(le, found));
  }

  lemma PickedSorted(protocol: Protocol, cases: seq<PublicCase>, digests: set<string>, found: seq<PublicCase>)
    requires Picked(protocol, cases, digests, found)
    ensures Picked(protocol, cases, digests, Sort(ByKey(CaseKey(protocol)), found))
    ensures Sorted(ByKey(CaseKey(protocol)), Sort(ByKey(CaseKey(protocol)), found))
  {
    var sorted := Sort(ByKey(CaseKey(protocol)), found);
    ByKeyIsOrdered(CaseKey(protocol));
    SortSorts(ByKey(CaseKey(protocol)), found);
    SameMultiset(found, sorted);
    DistinctPermutation(found, sorted);
    forall k ensures k in sorted <==> k in found {
      assert k in Elements(sorted) <==> k in Elements(found);
    }
  }

  // ---------- what is found for a projected pair ----------

  function SlotKey(protocol: Protocol, m: PairMaterial): Slot -> Key {
    (s: Slot) => CaseKey(protocol)(SlotCase(m)(s))
  }

  /** The six slots in the order of their cases. */
  function SlotOrder(protocol: Protocol, m: PairMaterial): seq<Slot> {
    Sort(ByKey(SlotKey(protocol, m)), SIX_SLOTS)
  }

  /** The truth of a pair, in the order of its cases. */
  function RouteTruths(protocol: Protocol): PairMaterial -> seq<TruthCase> {
    (m: PairMaterial) => Apply(SlotOrder(protocol, m), TruthAt(protocol, m))
  }

  lemma SlotOrderIsCaseOrder(protocol: Protocol, m: PairMaterial)
    ensures Apply(SlotOrder(protocol, m), SlotCase(m))
      == Sort(ByKey(CaseKey(protocol)), Apply(SIX_SLOTS, SlotCase(m)))
  {
    SortApply(ByKey(SlotKey(protocol, m)), ByKey(CaseKey(protocol)), SlotCase(m), SIX_SLOTS);
  }

  /** The slot in whose case a view of either twin is shown. */
  function HomeSlot(left: bool, v: ViewKind): Slot {
    (left || Neutral(v), v)
  }

  lemma HomeIsListed(left: bool, v: ViewKind)
    ensures HomeSlot(left, v) in SIX_SLOTS
  {
    var k := if left || Neutral(v) then ViewRank(v) else ViewRank(v) + 2;
    assert SIX_SLOTS[k] == HomeSlot(left, v);
  }

  lemma HomeShows(m: PairMaterial, left: bool, v: ViewKind)
    requires TwinShots(Shots(m), m.manifest)
    ensures SlotEvidence(m)(HomeSlot(left, v)) == Shots(m)(left, v)
  {
    var shown := Shots(m);
    assert shown(left || Neutral(v), v) == shown(left, v);
  }

  lemma SlotShows(m: PairMaterial, s: Slot)
    ensures SlotCase(m)(s) == PublicCase(m.templateId, m.split, s.1, SlotEvidence(m)(s))
    ensures SlotEvidence(m)(s) == Shots(m)(s.0, s.1)
    ensures SlotCase(m)(s) == ShotBinding(m, Shots(m), s.0)(s.1).publicCase
  {
  }

  /** The slots of a pair that have evidence of their own. */
  predicate IsHome(s: Slot) {
    s.0 || !Neutral(s.1)
  }

  lemma SlotsAreHomes(s: Slot)
    ensures s in SIX_SLOTS <==> IsHome(s)
    ensures Distinct(SIX_SLOTS) && |SIX_SLOTS| == 6
  {
    if IsHome(s) {
      HomeIsListed(s.0, s.1);
    }
  }

  lemma SlotsShowDifferently(m: PairMaterial, s: Slot, s': Slot)
    requires TwinShots(Shots(m), m.manifest) && IsHome(s) && IsHome(s') && s != s'
    ensures SlotEvidence(m)(s) != SlotEvidence(m)(s')
  {
    var shown := Shots(m);
    assert shown(s.0, s.1) == shown(s'.0, s'.1) <==> s.1 == s'.1 && (s.0 == s'.0 || Neutral(s.1));
  }

  lemma SlotsStayDistinct(protocol: Protocol, m: PairMaterial, slots: seq<Slot>)
    requires protocol.Binding() && TwinShots(Shots(m), m.manifest)
    requires Distinct(slots) && forall s :: s in slots ==> IsHome(s)
    ensures Distinct(Apply(Apply(slots, SlotCase(m)), DigestAt(protocol)))
    ensures Distinct(Apply(slots, SlotCase(m)))
  {
    var cases := Apply(slots, SlotCase(m));
    var digests := Apply(cases, DigestAt(protocol));
    forall i, j | 0 <= i < j < |slots| ensures digests[i] != digests[j] {
      SlotsShowDifferently(m, slots[i], slots[j]);
      SlotShows(m, slots[i]);
      SlotShows(m, slots[j]);
      assert cases[i] == SlotCase(m)(slots[i]) && cases[j] == SlotCase(m)(slots[j]);
    }
    forall i, j | 0 <= i < j < |slots| ensures cases[i] != cases[j] {
      assert digests[i] != digests[j];
    }
  }

  lemma SlotsAreDistinct(protocol: Protocol, m: PairMaterial)
    requires protocol.Binding() && TwinShots(Shots(m), m.manifest)
    ensures Distinct(Apply(Apply(SIX_SLOTS, SlotCase(m)), DigestAt(protocol)))
    ensures Distinct(Apply(SIX_SLOTS, SlotCase(m)))
  {
    forall s: Slot ensures (s in SIX_SLOTS <==> IsHome(s)) && Distinct(SIX_SLOTS) {
      SlotsAreHomes(s);
    }
    SlotsStayDistinct(protocol, m, SIX_SLOTS);
  }

  /** The digest of what one side shows under a view. */
  function SideDigest(protocol: Protocol, m: PairMaterial, left: bool): ViewKind -> string {
    (v: ViewKind) => protocol.digest(Shots(m)(left, v))
  }

  lemma SideDigestsAre(protocol: Protocol, m: PairMaterial, left: bool)
    ensures Apply(SideRoute(protocol, m, left).digests, DigestOf) == Apply(VIEW_ORDER, SideDigest(protocol, m, left))
  {
  }

  lemma ApplyConcatenation<S, T>(a: seq<S>, b: seq<S>, f: S -> T)
    ensures Apply(a + b, f) == Apply(a, f) + Apply(b, f)
  {
  }

  lemma InRoute(protocol: Protocol, m: PairMaterial, d: string)
    ensures d in RouteDigests(RouteFor(protocol)(m))
      <==> exists left, v :: d == SideDigest(protocol, m, left)(v)
  {
    var route := RouteFor(protocol)(m);
    var first, second := Apply(route.left.digests, DigestOf), Apply(route.right.digests, DigestOf);
    ApplyConcatenation(route.left.digests, route.right.digests, DigestOf);
    SideDigestsAre(protocol, m, true);
    SideDigestsAre(protocol, m, false);
    AppliedViews(SideDigest(protocol, m, true), d);
    AppliedViews(SideDigest(protocol, m, false), d);
    assert d in RouteDigests(route) <==> d in first || d in second;
    if left, v :| d == SideDigest(protocol, m, left)(v) {
      assert if left then d in first else d in second;
    }
  }

  lemma InSlots(protocol: Protocol, m: PairMaterial, d: string)
    requires TwinShots(Shots(m), m.manifest)
    ensures d in Apply(Apply(SIX_SLOTS, SlotCase(m)), DigestAt(protocol))
      <==> exists left, v :: d == SideDigest(protocol, m, left)(v)
  {
    var digests := Apply(Apply(SIX_SLOTS, SlotCase(m)), DigestAt(protocol));
    if left, v :| d == SideDigest(protocol, m, left)(v) {
      HomeShows(m, left, v);
      SlotDigestListed(protocol, m, HomeSlot(left, v));
    }
    if d in digests {
      var k :| 0 <= k < |digests| && digests[k] == d;
      DigestOfSlot(protocol, m, SIX_SLOTS, k);
    }
  }

  lemma DigestOfSlot(protocol: Protocol, m: PairMaterial, slots: seq<Slot>, k: nat)
    requires k < |slots|
    ensures Apply(Apply(slots, SlotCase(m)), DigestAt(protocol))[k] == SideDigest(protocol, m, slots[k].0)(slots[k].1)
  {
    SlotShows(m, slots[k]);
    assert Apply(slots, SlotCase(m))[k] == SlotCase(m)(slots[k]);
  }

  lemma SlotDigestListed(protocol: Protocol, m: PairMaterial, s: Slot)
    requires IsHome(s)
    ensures protocol.digest(SlotEvidence(m)(s)) in Apply(Apply(SIX_SLOTS, SlotCase(m)), DigestAt(protocol))
  {
    SlotsAreHomes(s);
    var k :| 0 <= k < |SIX_SLOTS| && SIX_SLOTS[k] == s;
    DigestOfSlot(protocol, m, SIX_SLOTS, k);
  }

  /** A route binds exactly the digests of its six slots. */
  lemma RouteDigestsAre(protocol: Protocol, m: PairMaterial, d: string)
    requires TwinShots(Shots(m), m.manifest)
    ensures d in RouteDigests(RouteFor(protocol)(m))
      <==> d in Apply(Apply(SIX_SLOTS, SlotCase(m)), DigestAt(protocol))
  {
    InRoute(protocol, m, d);
    InSlots(protocol, m, d);
  }

  lemma SixRouteDigests(protocol: Protocol, m: PairMaterial)
    requires protocol.Binding() && TwinShots(Shots(m), m.manifest)
    ensures |RouteDigests(RouteFor(protocol)(m))| == 6
  {
    var slots := Apply(Apply(SIX_SLOTS, SlotCase(m)), DigestAt(protocol));
    forall d ensures d in RouteDigests(RouteFor(protocol)(m)) <==> d in Elements(slots) {
      RouteDigestsAre(protocol, m, d);
    }
    assert RouteDigests(RouteFor(protocol)(m)) == Elements(slots);
    SlotsAreDistinct(protocol, m);
    DistinctCardinality(slots);
  }

  lemma SlotIsFound(protocol: Protocol, ms: seq<PairMaterial>, i: nat, s: Slot)
    requires protocol.Binding() && Regular(ms) && i < |ms|
    ensures FindCase(protocol, ViewsOf(protocol, ms).cases, protocol.digest(SlotEvidence(ms[i])(s)))
      == Some(SlotCase(ms[i])(s))
  {
    var c := SlotCase(ms[i])(s);
    CaseIsListed(ms, i, s.0, s.1);
    ViewsKeepCases(protocol, ms);
    assert c in ViewsOf(protocol, ms).cases;
    var found := FindCase(protocol, ViewsOf(protocol, ms).cases, protocol.digest(c.evidence));
    assert found.Some? && SameDigest(protocol, found.value, c);
  }

  lemma CaseKeySeparates(protocol: Protocol, m: PairMaterial, slots: seq<Slot>)
    requires protocol.Binding()
    ensures Separates(ByKey(CaseKey(protocol)), Apply(slots, SlotCase(m)))
  {
    var cases, le := Apply(slots, SlotCase(m)), ByKey(CaseKey(protocol));
    forall i, j | 0 <= i < |cases| && 0 <= j < |cases| && le(cases[i], cases[j]) && le(cases[j], cases[i])
      ensures cases[i] == cases[j]
    {
      SameCaseKey(protocol, cases[i], cases[j]);
      SlotShows(m, slots[i]);
      SlotShows(m, slots[j]);
    }
  }

  lemma SameCaseKey(protocol: Protocol, a: PublicCase, b: PublicCase)
    requires protocol.Binding()
    requires ByKey(CaseKey(protocol))(a, b) && ByKey(CaseKey(protocol))(b, a)
    ensures a.evidence == b.evidence && a.view == b.view
  {
    SameKey(CaseKey(protocol)(a), CaseKey(protocol)(b));
  }

  lemma SameKey(a: Key, b: Key)
    requires KeyLe(a, b) && KeyLe(b, a)
    ensures a == b
  {
    StringsCompare(a.digest, b.digest);
    TuplesAreOrdered();
  }

  /** The lookup finds exactly the six cases of the pair, in case order. */
  lemma RouteCasesAre(protocol: Protocol, ms: seq<PairMaterial>, i: nat, found: seq<PublicCase>)
    requires protocol.Binding() && Regular(ms) && i < |ms|
    requires Picked(protocol, ViewsOf(protocol, ms).cases, RouteDigests(RouteFor(protocol)(ms[i])), found)
    requires Sorted(ByKey(CaseKey(protocol)), found)
    ensures found == Apply(SlotOrder(protocol, ms[i]), SlotCase(ms[i]))
  {
    var m := ms[i];
    var slots := Apply(SIX_SLOTS, SlotCase(m));
    var le := ByKey(CaseKey(protocol));
    forall k | k in found ensures k in slots {
      PickedIsSlot(protocol, ms, i, found, k);
    }
    forall n | 0 <= n < |slots| ensures slots[n] in found {
      ListedIsPicked(protocol, ms, i, found, n);
    }
    SlotsAreDistinct(protocol, m);
    SameDistinct(found, slots);
    SlotOrderIsCaseOrder(protocol, m);
    ByKeyIsOrdered(CaseKey(protocol));
    SortSorts(le, slots);
    CaseKeySeparates(protocol, m, SIX_SLOTS);
    SeparatesPermutation(le, slots, Sort(le, slots));
    SortedArrangementsAgree(le, Sort(le, slots), found);
  }

  lemma SlotIsPicked(protocol: Protocol, ms: seq<PairMaterial>, i: nat, found: seq<PublicCase>, s: Slot)
    requires protocol.Binding() && Regular(ms) && i < |ms| && s in SIX_SLOTS
    requires Picked(protocol, ViewsOf(protocol, ms).cases, RouteDigests(RouteFor(protocol)(ms[i])), found)
    ensures SlotCase(ms[i])(s) in found
  {
    var m := ms[i];
    var d := protocol.digest(SlotEvidence(m)(s));
    InRoute(protocol, m, d);
    assert d == SideDigest(protocol, m, s.0)(s.1);
    SlotIsFound(protocol, ms, i, s);
  }

  lemma PickedIsSlot(protocol: Protocol, ms: seq<PairMaterial>, i: nat, found: seq<PublicCase>, k: PublicCase)
    requires protocol.Binding() && Regular(ms) && i < |ms| && k in found
    requires Picked(protocol, ViewsOf(protocol, ms).cases, RouteDigests(RouteFor(protocol)(ms[i])), found)
    ensures k in Apply(SIX_SLOTS, SlotCase(ms[i]))
  {
    var s := SlotWithDigest(protocol, ms[i], DigestAt(protocol)(k));
    SlotIsPicked(protocol, ms, i, found, s);
    SlotShows(ms[i], s);
    SameFound(protocol, ms, found, k, SlotCase(ms[i])(s));
    SlotListed(ms[i], s);
  }

  lemma ListedIsPicked(protocol: Protocol, ms: seq<PairMaterial>, i: nat, found: seq<PublicCase>, n: nat)
    requires protocol.Binding() && Regular(ms) && i < |ms| && n < |SIX_SLOTS|
    requires Picked(protocol, ViewsOf(protocol, ms).cases, RouteDigests(RouteFor(protocol)(ms[i])), found)
    ensures Apply(SIX_SLOTS, SlotCase(ms[i]))[n] in found
  {
    SlotIsPicked(protocol, ms, i, found, SIX_SLOTS[n]);
  }

  lemma SlotListed(m: PairMaterial, s: Slot)
    requires s in SIX_SLOTS
    ensures SlotCase(m)(s) in Apply(SIX_SLOTS, SlotCase(m))
  {
    var k :| 0 <= k < |SIX_SLOTS| && SIX_SLOTS[k] == s;
    assert Apply(SIX_SLOTS, SlotCase(m))[k] == SlotCase(m)(s);
  }

  lemma SlotWithDigest(protocol: Protocol, m: PairMaterial, d: string) returns (s: Slot)
    requires TwinShots(Shots(m), m.manifest) && d in RouteDigests(RouteFor(protocol)(m))
    ensures s in SIX_SLOTS && protocol.digest(SlotEvidence(m)(s)) == d
  {
    InRoute(protocol, m, d);
    var left, v :| d == SideDigest(protocol, m, left)(v);
    HomeIsListed(left, v);
    HomeShows(m, left, v);
    s := HomeSlot(left, v);
  }

  lemma SameFound(
      protocol: Protocol, ms: seq<PairMaterial>, found: seq<PublicCase>, a: PublicCase, b: PublicCase)
    requires protocol.Binding() && Regular(ms) && protocol.digest(a.evidence) == protocol.digest(b.evidence)
    requires a in found && b in found && forall k :: k in found ==> k in ViewsOf(protocol, ms).cases
    ensures a == b
  {
    ViewsKeepCases(protocol, ms);
    assert SameDigest(protocol, a, b);
  }

  lemma SameDistinct<T>(a: seq<T>, b: seq<T>)
    requires Distinct(a) && Distinct(b) && forall x :: x in a <==> x in b
    ensures multiset(a) == multiset(b)
  {
    DistinctIffMultiset(a);
    DistinctIffMultiset(b);
    forall x ensures multiset(a)[x] == multiset(b)[x] {
      if x in a {
        assert multiset(a)[x] == 1 && multiset(b)[x] == 1;
      } else {
        assert x !in multiset(a) && x !in multiset(b);
      }
    }
  }
}
