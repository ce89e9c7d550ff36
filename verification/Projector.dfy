/** The projection loop: which collections of materials it admits, and why it
    then always succeeds (src/witnessgap/workspace100/views.py:595-676, 880-927). */
module Projector {
  import opened Model
  import opened Order
  import opened Permutations
  import opened Views
  import opened Projection

  // ---------- admissible collections ----------

  /** Every identity that has been seen so far. */
  datatype Used = Used(
    pairIds: set<string>, taskIds: set<string>,
    episodeIds: set<string>, commitments: set<string>, snapshots: set<string>)
  {
    predicate FreshSide(c: VerifiedCompletion) {
      c.episodeId !in episodeIds && c.commitment !in commitments && c.snapshot !in snapshots
    }

    function AddSide(c: VerifiedCompletion): Used {
      this.(episodeIds := episodeIds + {c.episodeId},
            commitments := commitments + {c.commitment},
            snapshots := snapshots + {c.snapshot})
    }

    /** The duplicate checks on one pair, in the order they are made. */
    predicate FreshPair(m: PairMaterial) {
      m.pairId !in pairIds && m.taskId !in taskIds && FreshSide(m.left) && AddSide(m.left).FreshSide(m.right)
    }

    function AddPair(m: PairMaterial): Used {
      AddSide(m.left).AddSide(m.right).(pairIds := pairIds + {m.pairId}, taskIds := taskIds + {m.taskId})
    }
  }

  function UsedBy(ms: seq<PairMaterial>): Used {
    if ms == [] then Used({}, {}, {}, {}, {}) else UsedBy(ms[..|ms| - 1]).AddPair(ms[|ms| - 1])
  }

  /** Every member passes `ok`, and no identity is used twice. */
  predicate Admissible(ok: PairMaterial -> bool, ms: seq<PairMaterial>) {
    ms == [] ||
    (var before, last := ms[..|ms| - 1], ms[|ms| - 1];
     Admissible(ok, before) && ok(last) && UsedBy(before).FreshPair(last))
  }

  function Good(protocol: Protocol): PairMaterial -> bool {
    (m: PairMaterial) => GoodTwins(m, protocol)
  }

  predicate Unrelated(a: VerifiedCompletion, b: VerifiedCompletion) {
    a.episodeId != b.episodeId && a.commitment != b.commitment && a.snapshot != b.snapshot
  }

  /** Two pairs that share no identity. */
  ghost predicate Separate(a: PairMaterial, b: PairMaterial) {
    && a.pairId != b.pairId && a.taskId != b.taskId
    && Unrelated(a.left, b.left) && Unrelated(a.left, b.right)
    && Unrelated(a.right, b.left) && Unrelated(a.right, b.right)
  }

  lemma {:induction false} FreshFromEach(m: PairMaterial, ms: seq<PairMaterial>, i: nat)
    requires UsedBy(ms).FreshPair(m) && i < |ms|
    ensures Separate(ms[i], m)
    decreases |ms|
  {
    if i < |ms| - 1 {
      FreshFromEach(m, ms[..|ms| - 1], i);
    }
  }

  lemma {:induction false} AdmissibleMeans(ok: PairMaterial -> bool, ms: seq<PairMaterial>)
    requires Admissible(ok, ms)
    ensures forall i :: 0 <= i < |ms| ==> ok(ms[i]) && Unrelated(ms[i].left, ms[i].right)
    ensures forall i, j :: 0 <= i < j < |ms| ==> Separate(ms[i], ms[j])
  {
    if ms != [] {
      var before, last := ms[..|ms| - 1], ms[|ms| - 1];
      AdmissibleMeans(ok, before);
      forall i, j | 0 <= i < j < |ms| ensures Separate(ms[i], ms[j]) {
        if j < |before| {
          assert Separate(before[i], before[j]);
        } else {
          FreshFromEach(last, before, i);
        }
      }
    }
  }

  /** Different admitted pairs have different registries. */
  lemma RegistriesDiffer(protocol: Protocol, a: PairMaterial, b: PairMaterial)
    requires ValidPairMaterial(a, protocol) && ValidPairMaterial(b, protocol) && Separate(a, b)
    ensures a.manifest != b.manifest
  {
    assert a.manifest.candidateCommitments[0] == a.left.commitment;
    assert b.manifest.candidateCommitments[0] == b.left.commitment;
  }

  ghost predicate Patterned(m: PairMaterial) {
    PairPattern(SideBindings(m, true), SideBindings(m, false), m.manifest)
  }

  ghost predicate DistinctRegistries(ms: seq<PairMaterial>) {
    forall i, j :: 0 <= i < j < |ms| ==> ms[i].manifest != ms[j].manifest
  }

  lemma GoodTwinsArePatterned(protocol: Protocol, m: PairMaterial)
    requires GoodTwins(m, protocol)
    ensures Patterned(m)
  {
    GoodTwinsHaveFacts(m, protocol);
    PairShots(m, protocol.templates(m.templateId));
    ShotsHavePattern(m, Shots(m), m.manifest);
  }

  lemma AdmittedArePatterned(protocol: Protocol, ms: seq<PairMaterial>)
    requires Admissible(Good(protocol), ms)
    ensures forall i :: 0 <= i < |ms| ==> Patterned(ms[i])
  {
    var ok := Good(protocol);
    AdmissibleMeans(ok, ms);
    forall i | 0 <= i < |ms| ensures Patterned(ms[i]) {
      assert ok(ms[i]);
      GoodTwinsArePatterned(protocol, ms[i]);
    }
  }

  lemma AdmittedRegistriesDiffer(protocol: Protocol, ms: seq<PairMaterial>)
    requires Admissible(Good(protocol), ms)
    ensures DistinctRegistries(ms)
  {
    var ok := Good(protocol);
    AdmissibleMeans(ok, ms);
    forall i, j | 0 <= i < j < |ms| ensures ms[i].manifest != ms[j].manifest {
      assert ok(ms[i]) && ok(ms[j]);
      RegistriesDiffer(protocol, ms[i], ms[j]);
    }
  }

  lemma RegistryOfEntry(m: PairMaterial, b: CaseBinding)
    requires Patterned(m) && b in SixBindings(m)
    ensures b.publicCase.evidence.registry == m.manifest
  {
    var left, right := SideBindings(m, true), SideBindings(m, false);
    if b !in left {
      var i :| 0 <= i < |right[2..]| && right[2..][i] == b;
      assert right[i + 2] in right;
    }
  }

  lemma EntryComesFrom(ms: seq<PairMaterial>, b: CaseBinding) returns (i: nat)
    requires b in Flat(ms, SixBindings)
    ensures i < |ms| && b in SixBindings(ms[i])
  {
    FlatMembers(ms, SixBindings, b);
    var m :| m in ms && b in SixBindings(m);
    i :| 0 <= i < |ms| && ms[i] == m;
  }

  /** Indexing the eight projections of every pair keeps six cases per pair and
      never meets a digest collision. */
  lemma {:induction false} ProjectionNeverCollides(protocol: Protocol, ms: seq<PairMaterial>)
    requires protocol.Binding() && DistinctRegistries(ms)
    requires forall i :: 0 <= i < |ms| ==> Patterned(ms[i])
    ensures BindAll(protocol, [], Flat(ms, EightBindings)) == Some(Flat(ms, SixBindings))
    ensures Functional(Flat(ms, SixBindings))
  {
    if ms != [] {
      var before, last := ms[..|ms| - 1], ms[|ms| - 1];
      ProjectionNeverCollides(protocol, before);
      forall b | b in Flat(before, SixBindings) ensures b.publicCase.evidence.registry != last.manifest {
        var i := EntryComesFrom(before, b);
        assert ms[i] == before[i] && Patterned(ms[i]);
        RegistryOfEntry(ms[i], b);
      }
      assert Patterned(last);
      PatternedPairBinds(protocol, Flat(before, SixBindings), last);
      BindAllAppend(protocol, [], Flat(before, EightBindings), EightBindings(last));
    }
  }

  lemma PatternedPairBinds(protocol: Protocol, bindings: seq<CaseBinding>, m: PairMaterial)
    requires protocol.Binding() && Patterned(m) && Functional(bindings)
    requires forall x :: x in bindings ==> x.publicCase.evidence.registry != m.manifest
    ensures BindAll(protocol, bindings, EightBindings(m)) == Some(bindings + SixBindings(m))
    ensures Functional(bindings + SixBindings(m))
  {
    PatternBinds(protocol, bindings, SideBindings(m, true), SideBindings(m, false), m.manifest);
    Reassociate(bindings, SideBindings(m, true), SideBindings(m, false)[2..]);
  }

  lemma {:induction false} AdmissiblePrefix(ok: PairMaterial -> bool, ms: seq<PairMaterial>, k: nat)
    requires Admissible(ok, ms) && k <= |ms|
    ensures Admissible(ok, ms[..k])
    decreases |ms|
  {
    if k < |ms| {
      assert ms[..|ms| - 1][..k] == ms[..k];
      AdmissiblePrefix(ok, ms[..|ms| - 1], k);
    } else {
      assert ms[..k] == ms;
    }
  }

  // ---------- the loops ----------

  /** `_validate_projection_materials`, without its fixed counts. */
  method ValidateMaterials(ok: PairMaterial -> bool, ms: seq<PairMaterial>) returns (r: Result<(), ProjectionError>)
    ensures r.Ok? <==> Admissible(ok, ms)
  {
    var used := Used({}, {}, {}, {}, {});
    for i := 0 to |ms|
      invariant Admissible(ok, ms[..i]) && used == UsedBy(ms[..i])
    {
      assert ms[..i + 1][..i] == ms[..i];
      if !ok(ms[i]) || !used.FreshPair(ms[i]) {
        InadmissiblePrefix(ok, ms, i + 1);
        return Err(if ok(ms[i]) then DuplicateMaterial else InvalidMaterial);
      }
      used := used.AddPair(ms[i]);
    }
    assert ms[..|ms|] == ms;
    r := Ok(());
  }

  lemma InadmissiblePrefix(ok: PairMaterial -> bool, ms: seq<PairMaterial>, k: nat)
    requires k <= |ms| && !Admissible(ok, ms[..k])
    ensures !Admissible(ok, ms)
  {
    if Admissible(ok, ms) {
      AdmissiblePrefix(ok, ms, k);
    }
  }

  /** The innermost step: one view of one twin. */
  method ProjectView(protocol: Protocol, m: PairMaterial, left: bool, i: nat, bindings: seq<CaseBinding>)
    returns (next: Option<seq<CaseBinding>>, assignment: Assignment, digest: (ViewKind, string))
    requires i < |VIEW_ORDER|
    ensures next == Bind(protocol, bindings, SideBindings(m, left)[i])
    ensures assignment == SideAssignments(protocol, m, left)[i]
    ensures digest == SideRoute(protocol, m, left).digests[i]
  {
    var c, view := SideOf(m, left), VIEW_ORDER[i];
    var evidence := EvidenceFor(m, c, view);
    assert evidence == Shots(m)(left, view);
    var publicCase := PublicCase(m.templateId, m.split, view, evidence);
    assignment := Assignment(
      m.pairId, m.taskId, c.episodeId, m.templateId, m.split, view, protocol.digest(evidence));
    next := Bind(protocol, bindings, CaseBinding(publicCase, m.pairId, m.taskId));
    digest := (view, protocol.digest(evidence));
  }

  /** The four views of one twin. */
  method ProjectSide(protocol: Protocol, m: PairMaterial, left: bool, bindings0: seq<CaseBinding>)
    returns (bindings: Option<seq<CaseBinding>>, assignments: seq<Assignment>, route: CompletionRoute)
    ensures bindings == BindAll(protocol, bindings0, SideBindings(m, left))
    ensures bindings.Some? ==>
      assignments == SideAssignments(protocol, m, left) && route == SideRoute(protocol, m, left)
  {
    var c := SideOf(m, left);
    var digests: seq<(ViewKind, string)> := [];
    var i := 0;
    bindings, assignments := Some(bindings0), [];
    ghost var all := SideBindings(m, left);
    ghost var expected := SideAssignments(protocol, m, left);
    ghost var routed := SideRoute(protocol, m, left).digests;
    while i < |VIEW_ORDER| && bindings.Some?
      invariant 0 <= i <= |VIEW_ORDER|
      invariant bindings == BindAll(protocol, bindings0, all[..i])
      invariant bindings.Some? ==> assignments == expected[..i] && digests == routed[..i]
    {
      var assignment, digest;
      PrefixGrows(all[..i], all, i, all[i]);
      bindings, assignment, digest := ProjectView(protocol, m, left, i, bindings.value);
      PrefixGrows(assignments, expected, i, assignment);
      PrefixGrows(digests, routed, i, digest);
      assignments, digests, i := assignments + [assignment], digests + [digest], i + 1;
    }
    BindAllStops(protocol, bindings0, all, i);
    route := CompletionRoute(c.episodeId, c.commitment, c.snapshot, digests);
  }

  lemma BindAllStops(protocol: Protocol, bindings: seq<CaseBinding>, all: seq<CaseBinding>, k: nat)
    requires k <= |all| && (k == |all| || BindAll(protocol, bindings, all[..k]).None?)
    ensures BindAll(protocol, bindings, all) == BindAll(protocol, bindings, all[..k])
  {
    assert all == all[..k] + all[k..];
    BindAllAppend(protocol, bindings, all[..k], all[k..]);
  }

  /** One pair: both twins, and its route. */
  method ProjectPair(protocol: Protocol, m: PairMaterial, bindings0: seq<CaseBinding>)
    returns (bindings: Option<seq<CaseBinding>>, assignments: seq<Assignment>, route: PairRoute)
    ensures bindings == BindAll(protocol, bindings0, EightBindings(m))
    ensures bindings.Some? ==> assignments == PairAssignments(protocol)(m) && route == RouteFor(protocol)(m)
  {
    BindAllAppend(protocol, bindings0, SideBindings(m, true), SideBindings(m, false));
    var first, ofLeft, left := ProjectSide(protocol, m, true, bindings0);
    route := PairRoute(m.pairId, m.templateId, m.split, m.manifest, left, left);
    if first.None? {
      return None, ofLeft, route;
    }
    var ofRight, right;
    bindings, ofRight, right := ProjectSide(protocol, m, false, first.value);
    assignments := ofLeft + ofRight;
    route := PairRoute(m.pairId, m.templateId, m.split, m.manifest, left, right);
  }

  method ProjectAll(protocol: Protocol, ms: seq<PairMaterial>)
    returns (bindings: Option<seq<CaseBinding>>, assignments: seq<Assignment>, routes: seq<PairRoute>)
    ensures bindings == BindAll(protocol, [], Flat(ms, EightBindings))
    ensures bindings.Some? ==>
      assignments == Flat(ms, PairAssignments(protocol)) && routes == Apply(ms, RouteFor(protocol))
  {
    var i := 0;
    bindings, assignments, routes := Some([]), [], [];
    ghost var expected := Apply(ms, RouteFor(protocol));
    while i < |ms| && bindings.Some?
      invariant 0 <= i <= |ms|
      invariant bindings == BindAll(protocol, [], Flat(ms[..i], EightBindings))
      invariant bindings.Some? ==> assignments == Flat(ms[..i], PairAssignments(protocol)) && routes == expected[..i]
    {
      var more, route;
      NextPair(protocol, ms, i);
      bindings, more, route := ProjectPair(protocol, ms[i], bindings.value);
      PrefixGrows(routes, expected, i, RouteFor(protocol)(ms[i]));
      assignments, routes, i := assignments + more, routes + [route], i + 1;
    }
    FlatBindStops(protocol, ms, i);
  }

  lemma NextPair(protocol: Protocol, ms: seq<PairMaterial>, i: nat)
    requires i < |ms| && BindAll(protocol, [], Flat(ms[..i], EightBindings)).Some?
    ensures Flat(ms[..i + 1], PairAssignments(protocol))
      == Flat(ms[..i], PairAssignments(protocol)) + PairAssignments(protocol)(ms[i])
    ensures BindAll(protocol, [], Flat(ms[..i + 1], EightBindings))
      == BindAll(protocol, BindAll(protocol, [], Flat(ms[..i], EightBindings)).value, EightBindings(ms[i]))
  {
    assert ms[..i + 1][..i] == ms[..i];
    BindAllAppend(protocol, [], Flat(ms[..i], EightBindings), EightBindings(ms[i]));
  }

  lemma {:induction false} FlatBindStops(protocol: Protocol, ms: seq<PairMaterial>, k: nat)
    requires k <= |ms| && (k == |ms| || BindAll(protocol, [], Flat(ms[..k], EightBindings)).None?)
    ensures BindAll(protocol, [], Flat(ms, EightBindings)) == BindAll(protocol, [], Flat(ms[..k], EightBindings))
    ensures k == |ms| ==> ms[..k] == ms
    decreases |ms|
  {
    if k == |ms| {
      assert ms[..k] == ms;
    } else {
      var before, last := ms[..|ms| - 1], ms[|ms| - 1];
      assert before[..k] == ms[..k];
      FlatBindStops(protocol, before, k);
      BindAllAppend(protocol, [], Flat(before, EightBindings), EightBindings(last));
    }
  }

  function CaseOfBinding(b: CaseBinding): PublicCase {
    b.publicCase
  }

  /** The projection of materials already in canonical order. */
  function ViewsOf(protocol: Protocol, ordered: seq<PairMaterial>): EvidenceViews {
    EvidenceViews(
      Apply(ordered, RouteFor(protocol)),
      Sort(ByKey(AssignmentKey), Flat(ordered, PairAssignments(protocol))),
      Sort(ByKey(CaseKey(protocol)), Apply(Flat(ordered, SixBindings), CaseOfBinding)))
  }

  /** `_project_verified_materials`: whatever the number of pairs, it fails only
      on material that the validators reject, never on a digest collision. */
  method ProjectVerifiedMaterials(protocol: Protocol, materials: seq<PairMaterial>)
    returns (r: Result<EvidenceViews, ProjectionError>)
    requires protocol.Binding()
    ensures r.Ok? <==> Admissible(Good(protocol), Sort(ByKey(MaterialKey), materials))
    ensures r.Ok? ==> r.value == ViewsOf(protocol, Sort(ByKey(MaterialKey), materials))
    ensures r.Err? ==> r.error != DigestCollision
  {
    var ordered := Sort(ByKey(MaterialKey), materials);
    var valid := ValidateMaterials(Good(protocol), ordered);
    if valid.Err? {
      return Err(InvalidMaterial);
    }
    var bindings, assignments, routes := ProjectAll(protocol, ordered);
    AdmittedArePatterned(protocol, ordered);
    AdmittedRegistriesDiffer(protocol, ordered);
    ProjectionNeverCollides(protocol, ordered);
    match bindings {
      case None => r := Err(DigestCollision);
      case Some(index) =>
        r := Ok(EvidenceViews(
          routes,
          Sort(ByKey(AssignmentKey), assignments),
          Sort(ByKey(CaseKey(protocol)), Apply(index, CaseOfBinding))));
    }
  }
}
