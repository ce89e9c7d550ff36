/** Projecting any number of verified twin pairs to evidence cases
    (src/witnessgap/workspace100/views.py:595-676, 880-927). */
module Projection {
  import opened Model
  import opened Order
  import opened Attribution
  import opened Records
  import opened Views

  datatype PublicCase = PublicCase(templateId: TemplateId, split: Split, view: ViewKind, evidence: Evidence)

  datatype Assignment = Assignment(
    pairId: string, taskId: string, episodeId: string,
    templateId: TemplateId, split: Split, view: ViewKind, digest: string)

  datatype CompletionRoute = CompletionRoute(
    episodeId: string, commitment: string, snapshot: string, digests: seq<(ViewKind, string)>)

  datatype PairRoute = PairRoute(
    pairId: string, templateId: TemplateId, split: Split, manifest: Manifest,
    left: CompletionRoute, right: CompletionRoute)

  datatype EvidenceViews = EvidenceViews(
    routes: seq<PairRoute>, assignments: seq<Assignment>, cases: seq<PublicCase>)

  /** One entry of `case_bindings`; the worker bytes are those of the case. */
  datatype CaseBinding = CaseBinding(publicCase: PublicCase, pairId: string, taskId: string)

  datatype ProjectionError = InvalidMaterial | DuplicateMaterial | DigestCollision

  // ---------- canonical orders ----------

  function TemplateRank(t: TemplateId): nat {
    match t
    case PublishDraft => 0
    case InviteMember => 1
    case MoveWorkItem => 2
    case ScheduleReview => 3
    case GrantAccess => 4
  }

  function ViewRank(v: ViewKind): nat {
    match v
    case TraceOnly => 0
    case OwnerProbe => 1
    case EpochProbe => 2
    case RefreshReceipt => 3
  }

  /** A sort key; Python compares such tuples field by field. */
  datatype Key = Key(rank: nat, names: seq<string>, subrank: nat, digest: string)

  predicate KeyLe(a: Key, b: Key) {
    if a.rank != b.rank then a.rank < b.rank
    else if a.names != b.names then TupleLe(a.names, b.names)
    else if a.subrank != b.subrank then a.subrank < b.subrank
    else StringLe(a.digest, b.digest)
  }

  lemma KeysAreOrdered()
    ensures PreOrder(KeyLe)
  {
    TuplesAreOrdered();
    StringsAreOrdered();
  }

  function ByKey<T>(key: T -> Key): (T, T) -> bool {
    (a: T, b: T) => KeyLe(key(a), key(b))
  }

  lemma ByKeyIsOrdered<T(!new)>(key: T -> Key)
    ensures PreOrder(ByKey(key))
  {
    KeysAreOrdered();
    var le := ByKey(key);
    forall x, y, z | le(x, y) && le(y, z) ensures le(x, z) {
      assert KeyLe(key(x), key(y)) && KeyLe(key(y), key(z));
    }
  }

  function MaterialKey(m: PairMaterial): Key {
    Key(TemplateRank(m.templateId), [m.taskId, m.pairId], 0, "")
  }

  function RouteKey(r: PairRoute): Key {
    Key(TemplateRank(r.templateId), [r.manifest.taskId, r.pairId], 0, "")
  }

  function AssignmentKey(a: Assignment): Key {
    Key(TemplateRank(a.templateId), [a.taskId, a.pairId, a.episodeId], ViewRank(a.view), a.digest)
  }

  function CaseKey(protocol: Protocol): PublicCase -> Key {
    (c: PublicCase) => Key(ViewRank(c.view), [], TemplateRank(c.templateId), protocol.digest(c.evidence))
  }

  // ---------- what one pair contributes ----------

  /** The projected evidence; every lookup succeeds on validated material. */
  function EvidenceFor(m: PairMaterial, c: VerifiedCompletion, view: ViewKind): Evidence {
    match ProjectEvidence(m, c, view)
    case Some(e) => e
    case None => Evidence(m.manifest, m.manifest.CoverageDigest(), [], Failure, [], [])
  }

  function SideOf(m: PairMaterial, left: bool): VerifiedCompletion {
    if left then m.left else m.right
  }

  /** What the pair shows, by side and view. */
  function Shots(m: PairMaterial): (bool, ViewKind) -> Evidence {
    (left: bool, v: ViewKind) => EvidenceFor(m, SideOf(m, left), v)
  }

  lemma ShotIsProjected(m: PairMaterial, left: bool, view: ViewKind)
    requires ProjectEvidence(m, SideOf(m, left), view).Some?
    ensures Shots(m)(left, view) == ProjectEvidence(m, SideOf(m, left), view).value
  {
  }

  function ShotBinding(m: PairMaterial, shown: (bool, ViewKind) -> Evidence, left: bool): ViewKind -> CaseBinding {
    (v: ViewKind) => CaseBinding(PublicCase(m.templateId, m.split, v, shown(left, v)), m.pairId, m.taskId)
  }

  function ShotAssignment(
    protocol: Protocol, m: PairMaterial, shown: (bool, ViewKind) -> Evidence, left: bool): ViewKind -> Assignment
  {
    (v: ViewKind) => Assignment(
           m.pairId, m.taskId, SideOf(m, left).episodeId, m.templateId, m.split, v, protocol.digest(shown(left, v)))
  }

  function ShotDigest(
    protocol: Protocol, shown: (bool, ViewKind) -> Evidence, left: bool): ViewKind -> (ViewKind, string)
  {
    (v: ViewKind) => (v, protocol.digest(shown(left, v)))
  }

  function SideBindings(m: PairMaterial, left: bool): seq<CaseBinding> {
    Apply(VIEW_ORDER, ShotBinding(m, Shots(m), left))
  }

  function SideAssignments(protocol: Protocol, m: PairMaterial, left: bool): seq<Assignment> {
    Apply(VIEW_ORDER, ShotAssignment(protocol, m, Shots(m), left))
  }

  function SideRoute(protocol: Protocol, m: PairMaterial, left: bool): CompletionRoute {
    var c := SideOf(m, left);
    CompletionRoute(c.episodeId, c.commitment, c.snapshot, Apply(VIEW_ORDER, ShotDigest(protocol, Shots(m), left)))
  }

  /** The eight assignments of a pair: every view of either twin. */
  function PairAssignments(protocol: Protocol): PairMaterial -> seq<Assignment> {
    (m: PairMaterial) => SideAssignments(protocol, m, true) + SideAssignments(protocol, m, false)
  }

  function RouteFor(protocol: Protocol): PairMaterial -> PairRoute {
    (m: PairMaterial) =>
      PairRoute(
        m.pairId, m.templateId, m.split, m.manifest, SideRoute(protocol, m, true), SideRoute(protocol, m, false))
  }

  function EightBindings(m: PairMaterial): seq<CaseBinding> {
    SideBindings(m, true) + SideBindings(m, false)
  }

  /** The six distinct cases of a pair: two shared ones, and two for each twin. */
  function SixBindings(m: PairMaterial): seq<CaseBinding> {
    SideBindings(m, true) + SideBindings(m, false)[2..]
  }

  // ---------- the digest index ----------

  /** `case_bindings.get(digest)` on the insertion-ordered dictionary. */
  function FindBinding(protocol: Protocol, bindings: seq<CaseBinding>, digest: string): (b: Option<CaseBinding>)
    ensures b.Some? ==> b.value in bindings && protocol.digest(b.value.publicCase.evidence) == digest
    ensures b.None? ==> forall x :: x in bindings ==> protocol.digest(x.publicCase.evidence) != digest
  {
    if bindings == [] then None
    else if protocol.digest(bindings[0].publicCase.evidence) == digest then Some(bindings[0])
    else
      assert bindings == [bindings[0]] + bindings[1..];
      FindBinding(protocol, bindings[1..], digest)
  }

  /** One index update; `None` is the collision error. */
  function Bind(protocol: Protocol, bindings: seq<CaseBinding>, b: CaseBinding): Option<seq<CaseBinding>> {
    match FindBinding(protocol, bindings, protocol.digest(b.publicCase.evidence))
    case None => Some(bindings + [b])
    case Some(existing) => if existing == b then Some(bindings) else None
  }

  function BindAll(protocol: Protocol, start: seq<CaseBinding>, more: seq<CaseBinding>): Option<seq<CaseBinding>> {
    if more == [] then Some(start)
    else match BindAll(protocol, start, more[..|more| - 1])
         case None => None
         case Some(bindings) => Bind(protocol, bindings, more[|more| - 1])
  }

  lemma {:induction false} BindAllAppend(
      protocol: Protocol, start: seq<CaseBinding>, a: seq<CaseBinding>, b: seq<CaseBinding>)
    ensures BindAll(protocol, start, a + b) ==
      match BindAll(protocol, start, a) case None => None case Some(mid) => BindAll(protocol, mid, b)
  {
    if b == [] {
      assert a + b == a;
    } else {
      assert (a + b)[..|a + b| - 1] == a + b[..|b| - 1];
      BindAllAppend(protocol, start, a, b[..|b| - 1]);
    }
  }

  /** The index knows no digest of `b`, or already holds exactly `b`. */
  ghost predicate Unseen(bindings: seq<CaseBinding>, b: CaseBinding) {
    forall x :: x in bindings ==> x.publicCase.evidence != b.publicCase.evidence
  }

  ghost predicate Functional(bindings: seq<CaseBinding>) {
    forall x, y :: x in bindings && y in bindings && x.publicCase.evidence == y.publicCase.evidence ==> x == y
  }

  lemma BindNew(protocol: Protocol, bindings: seq<CaseBinding>, b: CaseBinding)
    requires protocol.Binding() && Unseen(bindings, b)
    ensures Bind(protocol, bindings, b) == Some(bindings + [b])
  {
    var found := FindBinding(protocol, bindings, protocol.digest(b.publicCase.evidence));
    assert found.Some? ==> found.value.publicCase.evidence == b.publicCase.evidence;
  }

  lemma BindKnown(protocol: Protocol, bindings: seq<CaseBinding>, b: CaseBinding)
    requires protocol.Binding() && b in bindings && Functional(bindings)
    ensures Bind(protocol, bindings, b) == Some(bindings)
  {
    var found := FindBinding(protocol, bindings, protocol.digest(b.publicCase.evidence));
    assert found.value.publicCase.evidence == b.publicCase.evidence;
  }

  // ---------- no collision can happen ----------

  /** New entries for the index: unseen, and pairwise different evidence. */
  ghost predicate AllNew(bindings: seq<CaseBinding>, more: seq<CaseBinding>) {
    && (forall i :: 0 <= i < |more| ==> Unseen(bindings, more[i]))
    && (forall i, j :: 0 <= i < j < |more| ==> more[i].publicCase.evidence != more[j].publicCase.evidence)
  }

  /** Unseen evidence only, for an index that is a function of the evidence. */
  ghost function NewTo(bindings: seq<CaseBinding>): seq<CaseBinding> -> bool {
    (more: seq<CaseBinding>) => AllNew(bindings, more) && Functional(bindings)
  }

  ghost function Extends(protocol: Protocol, bindings: seq<CaseBinding>): seq<CaseBinding> -> bool {
    (more: seq<CaseBinding>) =>
      BindAll(protocol, bindings, more) == Some(bindings + more) && Functional(bindings + more)
  }

  lemma NothingExtends(protocol: Protocol, bindings: seq<CaseBinding>)
    requires Functional(bindings)
    ensures Extends(protocol, bindings)([])
  {
    var none: seq<CaseBinding> := [];
    assert bindings + none == bindings;
  }

  lemma NewIsUnseen(bindings: seq<CaseBinding>, before: seq<CaseBinding>, last: CaseBinding)
    requires NewTo(bindings)(before + [last])
    ensures NewTo(bindings)(before) && Unseen(bindings + before, last)
  {
    var more := before + [last];
    assert more[..|more| - 1] == before && more[|more| - 1] == last;
    LastIsUnseen(bindings, more);
  }

  lemma UnseenExtends(protocol: Protocol, bindings: seq<CaseBinding>, before: seq<CaseBinding>, last: CaseBinding)
    requires protocol.Binding() && Extends(protocol, bindings)(before) && Unseen(bindings + before, last)
    ensures Extends(protocol, bindings)(before + [last])
  {
    BindOneMore(protocol, bindings, before, last, before + [last]);
  }

  lemma {:induction false} NewExtends(protocol: Protocol, bindings: seq<CaseBinding>, more: seq<CaseBinding>)
    requires protocol.Binding() && NewTo(bindings)(more)
    ensures Extends(protocol, bindings)(more)
  {
    if more == [] {
      NothingExtends(protocol, bindings);
    } else {
      var before, last := more[..|more| - 1], more[|more| - 1];
      assert more == before + [last];
      NewIsUnseen(bindings, before, last);
      NewExtends(protocol, bindings, before);
      UnseenExtends(protocol, bindings, before, last);
    }
  }

  lemma BindAllNew(protocol: Protocol, bindings: seq<CaseBinding>, more: seq<CaseBinding>)
    requires protocol.Binding() && AllNew(bindings, more) && Functional(bindings)
    ensures BindAll(protocol, bindings, more) == Some(bindings + more)
    ensures Functional(bindings + more)
  {
    NewExtends(protocol, bindings, more);
    assert Extends(protocol, bindings)(more);
  }

  lemma BindOneMore(
      protocol: Protocol, bindings: seq<CaseBinding>, before: seq<CaseBinding>, last: CaseBinding,
      more: seq<CaseBinding>)
    requires protocol.Binding() && more == before + [last]
    requires BindAll(protocol, bindings, before) == Some(bindings + before)
    requires Functional(bindings + before) && Unseen(bindings + before, last)
    ensures BindAll(protocol, bindings, more) == Some(bindings + more) && Functional(bindings + more)
  {
    assert bindings + more == bindings + before + [last] && more[..|more| - 1] == before;
    BindNew(protocol, bindings + before, last);
    BindLast(protocol, bindings, more, bindings + before, bindings + more);
    FunctionalGrows(bindings + before, last);
  }

  lemma BindLast(
      protocol: Protocol, bindings: seq<CaseBinding>, more: seq<CaseBinding>, mid: seq<CaseBinding>,
      next: seq<CaseBinding>)
    requires more != [] && BindAll(protocol, bindings, more[..|more| - 1]) == Some(mid)
    requires Bind(protocol, mid, more[|more| - 1]) == Some(next)
    ensures BindAll(protocol, bindings, more) == Some(next)
  {
  }

  lemma LastIsUnseen(bindings: seq<CaseBinding>, more: seq<CaseBinding>)
    requires AllNew(bindings, more) && more != []
    ensures Unseen(bindings + more[..|more| - 1], more[|more| - 1])
    ensures AllNew(bindings, more[..|more| - 1])
  {
  }

  lemma FunctionalGrows(bindings: seq<CaseBinding>, b: CaseBinding)
    requires Functional(bindings) && Unseen(bindings, b)
    ensures Functional(bindings + [b])
  {
  }

  lemma {:induction false} BindAllKnown(protocol: Protocol, bindings: seq<CaseBinding>, more: seq<CaseBinding>)
    requires protocol.Binding() && Functional(bindings)
    requires forall i :: 0 <= i < |more| ==> more[i] in bindings
    ensures BindAll(protocol, bindings, more) == Some(bindings)
  {
    if more != [] {
      BindAllKnown(protocol, bindings, more[..|more| - 1]);
      BindKnown(protocol, bindings, more[|more| - 1]);
    }
  }

  /** Equal evidence comes from one view, and from one twin unless the view is
      neutral. */
  lemma EvidenceDetermines(
      m: PairMaterial, t: TemplateRecord,
      c: VerifiedCompletion, v: ViewKind, c': VerifiedCompletion, v': ViewKind)
    requires TwinFacts(m, t) && IsSide(c, m) && IsSide(c', m)
    ensures EvidenceFor(m, c, v) == EvidenceFor(m, c', v') <==> v == v' && (c == c' || Neutral(v))
    ensures EvidenceFor(m, c, v).registry == m.manifest && EvidenceFor(m, c, v).coverage == m.manifest.CoverageDigest()
  {
    ProjectionShows(m, t, c, v);
    ProjectionShows(m, t, c', v');
    if EvidenceFor(m, c, v) == EvidenceFor(m, c', v') {
      ViewsAreDisjoint(EvidenceFor(m, c, v), t, v, v');
    }
    if c != c' {
      TwinsDifferOnInformativeViews(m, t, v);
    }
  }

  /** The evidence of a pair by side and view, with nothing else known of it:
      eight projections, six values. */
  ghost predicate TwinShots(shown: (bool, ViewKind) -> Evidence, registry: Manifest) {
    && (forall s, v, s', v' :: shown(s, v) == shown(s', v') <==> v == v' && (s == s' || Neutral(v)))
    && (forall s, v :: shown(s, v).registry == registry && shown(s, v).coverage == registry.CoverageDigest())
  }

  lemma PairShots(m: PairMaterial, t: TemplateRecord)
    requires TwinFacts(m, t)
    ensures TwinShots(Shots(m), m.manifest)
  {
    OppositeTargets(m);
    forall s: bool, v: ViewKind, s': bool, v': ViewKind
      ensures Shots(m)(s, v) == Shots(m)(s', v') <==> v == v' && (s == s' || Neutral(v))
      ensures Shots(m)(s, v).registry == m.manifest && Shots(m)(s, v).coverage == m.manifest.CoverageDigest()
    {
      EvidenceDetermines(m, t, SideOf(m, s), v, SideOf(m, s'), v');
    }
  }

  ghost predicate PairPattern(left: seq<CaseBinding>, right: seq<CaseBinding>, registry: Manifest) {
    && |left| == 4 && |right| == 4 && right[..2] == left[..2]
    && (forall i, j :: 0 <= i < j < 4 ==> left[i].publicCase.evidence != left[j].publicCase.evidence)
    && (forall i, j :: 0 <= i < 4 && 2 <= j < 4 ==> left[i].publicCase.evidence != right[j].publicCase.evidence)
    && right[2].publicCase.evidence != right[3].publicCase.evidence
    && (forall b :: b in left || b in right ==> b.publicCase.evidence.registry == registry)
  }

  lemma ShotsHavePattern(m: PairMaterial, shown: (bool, ViewKind) -> Evidence, registry: Manifest)
    requires TwinShots(shown, registry)
    ensures PairPattern(
      Apply(VIEW_ORDER, ShotBinding(m, shown, true)), Apply(VIEW_ORDER, ShotBinding(m, shown, false)), registry)
  {
    assert shown(true, TraceOnly) == shown(false, TraceOnly) && shown(true, OwnerProbe) == shown(false, OwnerProbe);
    TwinBindingsHavePattern(ShotBinding(m, shown, true), ShotBinding(m, shown, false), registry);
  }

  lemma TwinBindingsHavePattern(left: ViewKind -> CaseBinding, right: ViewKind -> CaseBinding, registry: Manifest)
    requires left(TraceOnly) == right(TraceOnly) && left(OwnerProbe) == right(OwnerProbe)
    requires forall v, v' :: v != v' ==> left(v).publicCase.evidence != left(v').publicCase.evidence
    requires forall v, v' :: v != v' ==> right(v).publicCase.evidence != right(v').publicCase.evidence
    requires forall v, v' :: v != v' || !Neutral(v) ==> left(v).publicCase.evidence != right(v').publicCase.evidence
    requires forall v :: left(v).publicCase.evidence.registry == right(v).publicCase.evidence.registry == registry
    ensures PairPattern(Apply(VIEW_ORDER, left), Apply(VIEW_ORDER, right), registry)
  {
    var ls, rs := Apply(VIEW_ORDER, left), Apply(VIEW_ORDER, right);
    forall i, j | 0 <= i < j < 4 ensures ls[i].publicCase.evidence != ls[j].publicCase.evidence {
      ViewsDiffer(i, j);
    }
    forall i, j | 0 <= i < 4 && 2 <= j < 4 ensures ls[i].publicCase.evidence != rs[j].publicCase.evidence {
      if i == j {
        assert !Neutral(VIEW_ORDER[j]);
      } else {
        ViewsDiffer(i, j);
      }
    }
    ViewsDiffer(2, 3);
    assert rs[..2] == ls[..2];
  }

  lemma ViewsDiffer(i: nat, j: nat)
    requires i < 4 && j < 4 && i != j
    ensures VIEW_ORDER[i] != VIEW_ORDER[j]
  {
  }

  lemma PatternFirst(bindings: seq<CaseBinding>, left: seq<CaseBinding>, right: seq<CaseBinding>, registry: Manifest)
    requires PairPattern(left, right, registry)
    requires forall x :: x in bindings ==> x.publicCase.evidence.registry != registry
    ensures AllNew(bindings, left)
  {
    forall i | 0 <= i < |left| ensures Unseen(bindings, left[i]) {
      assert left[i] in left;
    }
  }

  lemma PatternSecond(bindings: seq<CaseBinding>, left: seq<CaseBinding>, right: seq<CaseBinding>, registry: Manifest)
    requires PairPattern(left, right, registry)
    requires forall x :: x in bindings ==> x.publicCase.evidence.registry != registry
    ensures AllNew(bindings + left, right[2..])
    ensures forall i :: 0 <= i < 2 ==> right[..2][i] in bindings + left
  {
    forall i | 0 <= i < 2 ensures Unseen(bindings + left, right[2..][i]) {
      assert right[2..][i] == right[i + 2] && right[i + 2] in right;
    }
    forall i | 0 <= i < 2 ensures right[..2][i] in bindings + left {
      assert right[..2][i] == left[..2][i] == left[i];
    }
  }

  /** Such a pair adds exactly six entries to an index that does not know its
      registry. */
  lemma PatternBinds(
      protocol: Protocol, bindings: seq<CaseBinding>, left: seq<CaseBinding>, right: seq<CaseBinding>,
      registry: Manifest)
    requires protocol.Binding() && Functional(bindings) && PairPattern(left, right, registry)
    requires forall x :: x in bindings ==> x.publicCase.evidence.registry != registry
    ensures BindAll(protocol, bindings, left + right) == Some(bindings + left + right[2..])
    ensures Functional(bindings + left + right[2..])
  {
    PatternFirst(bindings, left, right, registry);
    PatternSecond(bindings, left, right, registry);
    assert right == right[..2] + right[2..];
    BindAround(protocol, bindings, left, right[..2], right[2..]);
  }

  lemma BindAround(
      protocol: Protocol, bindings: seq<CaseBinding>,
      first: seq<CaseBinding>, known: seq<CaseBinding>, second: seq<CaseBinding>)
    requires protocol.Binding() && Functional(bindings)
    requires AllNew(bindings, first) && AllNew(bindings + first, second)
    requires forall i :: 0 <= i < |known| ==> known[i] in bindings + first
    ensures BindAll(protocol, bindings, first + (known + second)) == Some(bindings + first + second)
    ensures Functional(bindings + first + second)
  {
    BindAllNew(protocol, bindings, first);
    BindKnownThenNew(protocol, bindings + first, known, second);
    BindAllAppend(protocol, bindings, first, known + second);
  }

  lemma BindKnownThenNew(
      protocol: Protocol, bindings: seq<CaseBinding>, known: seq<CaseBinding>, second: seq<CaseBinding>)
    requires protocol.Binding() && Functional(bindings) && AllNew(bindings, second)
    requires forall i :: 0 <= i < |known| ==> known[i] in bindings
    ensures BindAll(protocol, bindings, known + second) == Some(bindings + second)
    ensures Functional(bindings + second)
  {
    BindAllKnown(protocol, bindings, known);
    BindAllNew(protocol, bindings, second);
    BindAllAppend(protocol, bindings, known, second);
  }
}
