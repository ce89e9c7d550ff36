/** The validators of projected evidence views, and why every projection passes
    them (src/witnessgap/workspace100/views.py:1018-1237). */
module Routing {
  import opened Model
  import opened Order
  import opened Permutations
  import opened Views
  import opened Projection

  // ---------- the validators ----------

  function WithDigest(digest: string): Assignment -> bool {
    (a: Assignment) => a.digest == digest
  }

  function OfEpisode(episodeId: string): Assignment -> bool {
    (a: Assignment) => a.episodeId == episodeId
  }

  function OfEpisodeView(episodeId: string, view: ViewKind): Assignment -> bool {
    (a: Assignment) => a.episodeId == episodeId && a.view == view
  }

  /** `_validate_evidence_view_order` */
  ghost predicate CanonicalOrder(protocol: Protocol, views: EvidenceViews) {
    && views.routes == Sort(ByKey(RouteKey), views.routes)
    && views.assignments == Sort(ByKey(AssignmentKey), views.assignments)
    && views.cases == Sort(ByKey(CaseKey(protocol)), views.cases)
  }

  ghost predicate SameDigest(protocol: Protocol, a: PublicCase, b: PublicCase) {
    protocol.digest(a.evidence) == protocol.digest(b.evidence)
  }

  /** `_evidence_case_index`: the digest index loses no case. */
  ghost predicate UniqueCases(protocol: Protocol, views: EvidenceViews) {
    && Distinct(views.cases)
    && forall a, b :: a in views.cases && b in views.cases && SameDigest(protocol, a, b) ==> a == b
  }

  ghost predicate SeparateRoutes(a: PairRoute, b: PairRoute) {
    && a.pairId != b.pairId && a.manifest.taskId != b.manifest.taskId
    && {a.left.episodeId, a.right.episodeId} !! {b.left.episodeId, b.right.episodeId}
  }

  /** `_routing_indexes`: pairs, tasks and episodes are routed once each. */
  ghost predicate UniqueRoutes(views: EvidenceViews) {
    && (forall i, j :: 0 <= i < j < |views.routes| ==> SeparateRoutes(views.routes[i], views.routes[j]))
    && (forall i :: 0 <= i < |views.routes| ==> views.routes[i].left.episodeId != views.routes[i].right.episodeId)
  }

  ghost predicate RoutedBy(protocol: Protocol, a: Assignment, route: PairRoute, side: CompletionRoute, k: PublicCase) {
    && a.pairId == route.pairId && a.taskId == route.manifest.taskId
    && (side == route.left || side == route.right) && a.episodeId == side.episodeId
    && a.templateId == route.templateId == k.templateId && a.split == route.split == k.split && a.view == k.view
    && k.evidence.registry == route.manifest && k.evidence.coverage == route.manifest.CoverageDigest()
    && (a.view, a.digest) in side.digests && a.digest == protocol.digest(k.evidence)
  }

  /** `_assignment_join_indexes`: every assignment has its route and its case. */
  ghost predicate Joined(protocol: Protocol, views: EvidenceViews, a: Assignment) {
    exists route, side, k :: route in views.routes && k in views.cases && RoutedBy(protocol, a, route, side, k)
  }

  /** `_validate_case_assignment_multiplicity` */
  ghost predicate RightMultiplicity(protocol: Protocol, views: EvidenceViews, k: PublicCase) {
    var matching := Filter(views.assignments, WithDigest(protocol.digest(k.evidence)));
    && |matching| == (if Neutral(k.view) then 2 else 1)
    && forall a, b :: a in matching && b in matching ==> a.pairId == b.pairId && a.taskId == b.taskId
  }

  /** `_validate_episode_assignments`, for one routed episode. */
  ghost predicate CoveredEpisode(views: EvidenceViews, route: PairRoute, side: CompletionRoute) {
    && |Filter(views.assignments, OfEpisode(side.episodeId))| == 4
    && (forall v :: |Filter(views.assignments, OfEpisodeView(side.episodeId, v))| == 1)
    && forall a :: a in views.assignments && a.episodeId == side.episodeId ==>
         && a.pairId == route.pairId && a.taskId == route.manifest.taskId
         && a.templateId == route.templateId && a.split == route.split
  }

  /** The checks on sizes, order and identity. */
  ghost predicate WellListed(protocol: Protocol, views: EvidenceViews, pairs: nat) {
    && |views.routes| == pairs && |views.assignments| == 8 * pairs && |views.cases| == 6 * pairs
    && CanonicalOrder(protocol, views)
    && UniqueCases(protocol, views) && UniqueRoutes(views)
  }

  /** The checks that tie assignments, cases and routes together. */
  ghost predicate WellJoined(protocol: Protocol, views: EvidenceViews) {
    && (forall a :: a in views.assignments ==> Joined(protocol, views, a))
    && (forall k :: k in views.cases ==> RightMultiplicity(protocol, views, k))
    && (forall r :: r in views.routes ==> CoveredEpisode(views, r, r.left) && CoveredEpisode(views, r, r.right))
  }

  // ---------- filtered lists ----------

  /** Only the i-th part contributes elements that satisfy `p`. */
  lemma {:induction false} FilterOnePair<S, T(!new)>(ms: seq<S>, part: S -> seq<T>, p: T -> bool, i: nat)
    requires i < |ms|
    requires forall j, x :: 0 <= j < |ms| && j != i && x in part(ms[j]) ==> !p(x)
    ensures Filter(Flat(ms, part), p) == Filter(part(ms[i]), p)
    decreases |ms|
  {
    var before, last := ms[..|ms| - 1], ms[|ms| - 1];
    FilterAppend(Flat(before, part), part(last), p);
    if i < |ms| - 1 {
      FilterOnePair(before, part, p, i);
      FilterNothing(part(last), p);
    } else {
      forall x | x in Flat(before, part) ensures !p(x) {
        FlatMembers(before, part, x);
        var m :| m in before && x in part(m);
        var j :| 0 <= j < |before| && before[j] == m;
        assert ms[j] == m;
      }
      FilterNothing(Flat(before, part), p);
    }
  }
}
