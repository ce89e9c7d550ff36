/** What the certificate path guarantees, and that it agrees with the search
    registry (src/witnessgap/verifier.py:309-422, src/witnessgap/identifiability.py:726-782). */
module Agreement {
  import opened Model
  import opened Order
  import opened Permutations
  import opened Subsets
  import opened Masks
  import opened Repairs
  import opened Panels
  import opened Attribution
  import opened Verifier
  import opened Certificates
  import opened Batch
  import Oracle
  import R = Registry

  // ---------- one certificate ----------

  /** The selected panels are those of the compatible completions, in order. */
  lemma SelectedAreCompatible(manifest: Manifest, sources: seq<Source>, e: Evidence)
    ensures var family := Family(manifest, sources);
      var panels := Apply(Ordered(sources), ExactPanel(manifest.atoms));
      && InRange(MatchingIndexes(family, e), |panels|)
      && Select(panels, MatchingIndexes(family, e)) == Apply(Compatible(family, e), AsPanel)
  {
    var family := Family(manifest, sources);
    var panels := Apply(Ordered(sources), ExactPanel(manifest.atoms));
    var indexes := MatchingIndexes(family, e);
    MatchingInRange(family, e);
    var at := At(family);
    assert Apply(Range(|family|), at) == family;
    ApplyFilter(Range(|family|), at, MatchesAt(family, e), (c: Completion) => Matches(c, e));
    assert Apply(indexes, at) == Compatible(family, e);
    forall k | 0 <= k < |indexes| ensures panels[indexes[k]] == AsPanel(at(indexes[k])) {
      assert family[indexes[k]] == CompletionOf(manifest)(Ordered(sources)[indexes[k]]);
    }
  }

  function AsPanel(c: Completion): VerifiedPanel {
    VerifiedPanel(c.commitment, c.panel)
  }

  function CompletionCommitment(c: Completion): string {
    c.commitment
  }

  ghost function At(family: seq<Completion>): nat -> Completion {
    (i: nat) => if i < |family| then family[i] else Completion("", Panel([], [], [], []), map[])
  }

  /** The panel root of a judgement: every completion, marked as compatible or not. */
  ghost function RootOf(family: seq<Completion>, e: Evidence): seq<PanelEntry> {
    seq(|family|, i requires 0 <= i < |family| =>
      PanelEntry(Matches(family[i], e), family[i].commitment, family[i].panel))
  }

  lemma IndexedIffMatches(family: seq<Completion>, e: Evidence, i: nat)
    requires i < |family|
    ensures i in MatchingIndexes(family, e) <==> Matches(family[i], e)
  {
    assert Range(|family|)[i] == i && i in Range(|family|);
    assert MatchesAt(family, e)(i) <==> Matches(family[i], e);
  }

  lemma RootOfPanels(family: seq<Completion>, e: Evidence, panels: seq<VerifiedPanel>)
    requires panels == Apply(family, AsPanel)
    ensures PanelRoot(panels, MatchingIndexes(family, e)) == RootOf(family, e)
  {
    var root := PanelRoot(panels, MatchingIndexes(family, e));
    forall i | 0 <= i < |family| ensures root[i] == RootOf(family, e)[i] {
      IndexedIffMatches(family, e, i);
    }
    assert root == RootOf(family, e);
  }

  lemma FamilyPanels(manifest: Manifest, sources: seq<Source>)
    ensures Apply(Ordered(sources), ExactPanel(manifest.atoms)) == Apply(Family(manifest, sources), AsPanel)
  {
  }

  lemma JudgementRoot(manifest: Manifest, sources: seq<Source>, e: Evidence)
    requires Judgement(manifest, sources, e).Some?
    ensures Judgement(manifest, sources, e).value.panelRoot == RootOf(Family(manifest, sources), e)
  {
    MatchingInRange(Family(manifest, sources), e);
    FamilyPanels(manifest, sources);
    RootOfPanels(Family(manifest, sources), e, Apply(Ordered(sources), ExactPanel(manifest.atoms)));
  }

  /** The certificate states the licensed verdict, names exactly the compatible
      completions in commitment order, and carries a pair iff it is ambiguous. */
  ghost predicate LicensedCertificate(family: seq<Completion>, e: Evidence, c: Certificate) {
    && LicensedBy(family, e, c.diagnosis)
    && c.compatible == Apply(Compatible(family, e), CompletionCommitment)
    && (c.diagnosis == AMBIGUOUS <==> c.ambiguity.Some?)
  }

  /** A judgement is licensed, and is refused only if nothing is compatible. */
  lemma JudgementIsLicensed(manifest: Manifest, sources: seq<Source>, e: Evidence)
    ensures var family, answer := Family(manifest, sources), Judgement(manifest, sources, e);
      && (answer.None? <==> Compatible(family, e) == [])
      && (answer.Some? ==> LicensedCertificate(family, e, answer.value))
  {
    var family := Family(manifest, sources);
    var compatible := Compatible(family, e);
    SelectedAreCompatible(manifest, sources, e);
    if compatible != [] {
      ConcludeIsLicensed(Apply(compatible, AsPanel));
      SelectedProfiles(compatible);
    }
  }

  lemma SelectedProfiles(compatible: seq<Completion>)
    ensures Apply(Apply(compatible, AsPanel), PanelProfile) == Apply(compatible, ProfileOf)
    ensures Apply(Apply(compatible, AsPanel), PanelCommitment) == Apply(compatible, CompletionCommitment)
  {
  }

  lemma {:induction false} FilterIncreases(s: seq<nat>, keep: nat -> bool)
    requires Increasing(s)
    ensures Increasing(Filter(s, keep))
  {
    if s != [] {
      FilterIncreases(s[1..], keep);
      var rest := Filter(s[1..], keep);
      forall k | 0 <= k < |rest| ensures s[0] < rest[k] {
        assert rest[k] in s[1..];
      }
    }
  }

  /** No certificate issued for an accepted source family can be rejected by
      the closed certificate validators. */
  lemma JudgementsValidate(manifest: Manifest, anchor: Manifest, sources: seq<Source>, e: Evidence)
    requires SourcesAccepted(manifest, anchor, sources)
    requires Judgement(manifest, sources, e).Some?
    ensures ValidCertificate(Judgement(manifest, sources, e).value)
  {
    var ordered := Ordered(sources);
    var family := Family(manifest, sources);
    var panels := Apply(ordered, ExactPanel(manifest.atoms));
    var indexes := MatchingIndexes(family, e);
    MatchingInRange(family, e);
    FilterIncreases(Range(|family|), MatchesAt(family, e));
    OrderedElements(sources);
    assert Apply(panels, PanelCommitment) == Apply(ordered, SourceCommitment);
    var first := ordered[indexes[0]];
    assert first in sources;
    DerivedCertificatesValidate(panels, indexes, e, manifest, WorldOf(first));
  }

  // ---------- order of the sources, size of the batch ----------

  /** Permuting the source openings changes neither the acceptance of a batch
      nor any certificate. */
  lemma SourceOrderIsIrrelevant(
      manifest: Manifest, anchor: Manifest, a: seq<Source>, b: seq<Source>, evidences: seq<Evidence>)
    requires multiset(a) == multiset(b)
    ensures BatchAccepted(manifest, anchor, a, evidences) <==> BatchAccepted(manifest, anchor, b, evidences)
    ensures SourcesAccepted(manifest, anchor, a) ==>
      forall e :: e in evidences ==> Judgement(manifest, a, e) == Judgement(manifest, b, e)
  {
    if SourcesAccepted(manifest, anchor, a) {
      AcceptedOrder(manifest, anchor, a, b);
      BatchStaysAccepted(manifest, anchor, a, b, evidences);
    }
    if SourcesAccepted(manifest, anchor, b) {
      AcceptedOrder(manifest, anchor, b, a);
      BatchStaysAccepted(manifest, anchor, b, a, evidences);
    }
  }

  lemma ProbesStayReproduced(a: seq<Source>, b: seq<Source>, e: Evidence)
    requires multiset(a) == multiset(b)
    ensures ProbesReproduce(a, e) <==> ProbesReproduce(b, e)
  {
    SameMultiset(a, b);
    forall s ensures s in a <==> s in b {
      assert s in Elements(a) <==> s in Elements(b);
    }
  }

  lemma BatchStaysAccepted(
      manifest: Manifest, anchor: Manifest, a: seq<Source>, b: seq<Source>, evidences: seq<Evidence>)
    requires multiset(a) == multiset(b) && Ordered(a) == Ordered(b) && SourcesAccepted(manifest, anchor, b)
    ensures BatchAccepted(manifest, anchor, a, evidences) ==> BatchAccepted(manifest, anchor, b, evidences)
    ensures forall e :: e in evidences ==> Judgement(manifest, a, e) == Judgement(manifest, b, e)
  {
    forall e | e in evidences
      ensures Judgement(manifest, a, e) == Judgement(manifest, b, e)
      ensures EvidenceAccepted(manifest, a, e) ==> EvidenceAccepted(manifest, b, e)
    {
      ProbesStayReproduced(a, b, e);
    }
  }

  lemma AcceptedOrder(manifest: Manifest, anchor: Manifest, a: seq<Source>, b: seq<Source>)
    requires multiset(a) == multiset(b) && SourcesAccepted(manifest, anchor, a)
    ensures Ordered(a) == Ordered(b) && SourcesAccepted(manifest, anchor, b)
  {
    var le := CommitmentOrder();
    StringsAreOrdered();
    assert PreOrder(le);
    var ordered := Ordered(a);
    forall i, j | 0 <= i < |ordered| && 0 <= j < |ordered| && le(ordered[i], ordered[j]) && le(ordered[j], ordered[i])
      ensures ordered[i] == ordered[j]
    {
      assert manifest.candidateCommitments[i] == manifest.candidateCommitments[j];
      assert i == j;
    }
    SeparatesPermutation(le, ordered, a);
    SortOfPermutation(le, a, b);
    OrderedElements(a);
    OrderedElements(b);
  }

  /** Within the batch bound, a batch is accepted exactly when every record in
      it would be accepted on its own. */
  lemma BatchIsPointwise(manifest: Manifest, anchor: Manifest, sources: seq<Source>, evidences: seq<Evidence>)
    requires 1 <= |evidences| <= MAX_EVIDENCE_BATCH
    ensures BatchAccepted(manifest, anchor, sources, evidences)
            <==> forall e :: e in evidences ==> BatchAccepted(manifest, anchor, sources, [e])
  {
    forall e | e in evidences
      ensures BatchAccepted(manifest, anchor, sources, [e])
              <==> SourcesAccepted(manifest, anchor, sources) && EvidenceAccepted(manifest, sources, e)
    {
      assert e in [e];
    }
    assert evidences[0] in evidences;
  }

  // ---------- the search registry and the verifier ----------

  /** A fresh execution shows what the world's replay of `chosen` reports, and
      raises if that does. */
  ghost predicate Runs(x: Option<Execution>, replay: Option<Oracle.ReplayResult>, chosen: set<string>) {
    if replay.None? then x.None? else x.Some? && Shows(x.value, replay.value, chosen)
  }

  ghost predicate Shows(x: Execution, replay: Oracle.ReplayResult, chosen: set<string>) {
    StringsAreOrdered();
    && x.outcome == replay.outcome && x.artifact.trace == replay.trace
    && Elements(x.artifact.stateReads) == Elements(replay.stateReads)
    && x.artifact.interventionLog == SortedSet(StringLe, chosen)
  }

  /** Both attempts run the world, and hide nothing that differs when its replays agree. */
  ghost predicate OpensAt(s: Source, w: R.ProbeWorld, chosen: set<string>) {
    && Runs(s.execute(chosen, 0), w.finite.replay(chosen, 0), chosen)
    && Runs(s.execute(chosen, 1), w.finite.replay(chosen, 1), chosen)
    && (w.finite.replay(chosen, 0) == w.finite.replay(chosen, 1) ==> s.execute(chosen, 1) == s.execute(chosen, 0))
  }

  /** A source that opens to the given probe world. */
  ghost predicate Opens(s: Source, w: R.ProbeWorld) {
    && s.commitment == w.commitment && s.decodes(0) && s.decodes(1)
    && (forall chosen :: chosen <= Elements(AtomNames(w.finite.atoms)) ==> OpensAt(s, w, chosen))
    && (forall n :: n in w.probeNames ==> s.probe(n, 0) == s.probe(n, 1) == Some(w.probe(n)))
  }

  /** A panel depends only on the replays of declared subsets. */
  lemma PanelReadsSubsets(atoms: seq<Atom>, a: World, b: World)
    requires StrictlySorted(StringLe, AtomNames(atoms))
    requires forall chosen :: chosen <= Elements(AtomNames(atoms)) ==> a(chosen) == b(chosen)
    ensures PanelOf(atoms, a) == PanelOf(atoms, b)
  {
    var names := AtomNames(atoms);
    AllSubsetsCanonical(names);
    TargetsCoverNames(atoms);
    forall i | 0 <= i < |AllSubsets(names)|
      ensures ReceiptOf(a)(AllSubsets(names)[i]) == ReceiptOf(b)(AllSubsets(names)[i])
    {
      assert AllSubsets(names)[i] in AllSubsets(names);
    }
    forall w | w in AllSubsets(names)
      ensures IsMinimalTuple(Succeeds(a))(w) <==> IsMinimalTuple(Succeeds(b))(w)
    {
      SameMinimality(a, b, Elements(names), Elements(w));
    }
    FilterAgree(AllSubsets(names), IsMinimalTuple(Succeeds(a)), IsMinimalTuple(Succeeds(b)));
    OutcomesDetermineFamily(atoms, a, b);
  }

  lemma SameMinimality(a: World, b: World, universe: set<string>, s: set<string>)
    requires s <= universe
    requires forall chosen :: chosen <= universe ==> a(chosen) == b(chosen)
    ensures MinimalSuccess(Succeeds(a), s) <==> MinimalSuccess(Succeeds(b), s)
  {
    assert forall t :: t < s ==> t <= universe;
  }

  ghost function Reading(probe: string -> Bytes): string -> ProbeObservation {
    (n: string) => ProbeObservation(n, probe(n))
  }

  lemma {:induction false} AvailableProbes(names: seq<string>, probe: string -> Bytes)
    ensures R.Available(Apply(names, Reading(probe))) == map n | n in names :: probe(n)
  {
    if names != [] {
      var before, last := names[..|names| - 1], names[|names| - 1];
      AvailableProbes(before, probe);
      assert Apply(names, Reading(probe)) == Apply(before, Reading(probe)) + [ProbeObservation(last, probe(last))];
      assert names == before + [last];
    }
  }

  lemma OpenedCompletion(manifest: Manifest, s: Source, w: R.ProbeWorld)
    requires manifest.Valid() && Opens(s, w)
    requires w.finite.atoms == manifest.atoms && w.probeNames == manifest.probeNames
    ensures CompletionOf(manifest)(s) == R.AsCompletion(R.CandidateOf(w))
  {
    forall chosen | chosen <= Elements(AtomNames(w.finite.atoms))
      ensures WorldOf(s)(chosen) == Oracle.FirstReplays(w.finite)(chosen)
    {
      assert OpensAt(s, w, chosen);
    }
    PanelReadsSubsets(manifest.atoms, WorldOf(s), Oracle.FirstReplays(w.finite));
    AvailableProbes(w.probeNames, w.probe);
    assert R.ProbesOf(w) == Apply(w.probeNames, Reading(w.probe));
  }

  ghost predicate OpenedBySome(sources: seq<Source>, w: R.ProbeWorld) {
    exists s :: s in sources && Opens(s, w)
  }

  ghost predicate OpensSome(s: Source, worlds: seq<R.ProbeWorld>) {
    exists w :: w in worlds && Opens(s, w)
  }

  ghost predicate SameWorlds(worlds: seq<R.ProbeWorld>, sources: seq<Source>) {
    && (forall w {:trigger OpenedBySome(sources, w)} :: w in worlds ==> OpenedBySome(sources, w))
    && (forall s {:trigger OpensSome(s, worlds)} :: s in sources ==> OpensSome(s, worlds))
  }

  ghost function RegistryFamily(worlds: seq<R.ProbeWorld>): seq<Completion> {
    Apply(Apply(worlds, R.CandidateOf), R.AsCompletion)
  }

  lemma WorldIsInFamily(worlds: seq<R.ProbeWorld>, sources: seq<Source>, i: nat)
    requires R.ValidFamily(worlds) && R.ManifestOf(worlds).Valid()
    requires i < |worlds| && OpenedBySome(sources, worlds[i])
    ensures RegistryFamily(worlds)[i] in Family(R.ManifestOf(worlds), sources)
  {
    var manifest := R.ManifestOf(worlds);
    var s :| s in sources && Opens(s, worlds[i]);
    assert worlds[i].Contract() == worlds[0].Contract();
    OpenedCompletion(manifest, s, worlds[i]);
    OrderedElements(sources);
    ImageIn(Ordered(sources), CompletionOf(manifest), s);
  }

  lemma ImageIn<S, T>(s: seq<S>, f: S -> T, x: S)
    requires x in s
    ensures f(x) in Apply(s, f)
  {
    var j :| 0 <= j < |s| && s[j] == x;
    assert Apply(s, f)[j] == f(x);
  }

  lemma SourceIsInRegistry(worlds: seq<R.ProbeWorld>, sources: seq<Source>, j: nat)
    requires R.ValidFamily(worlds) && R.ManifestOf(worlds).Valid()
    requires j < |Ordered(sources)| && OpensSome(Ordered(sources)[j], worlds)
    ensures Family(R.ManifestOf(worlds), sources)[j] in RegistryFamily(worlds)
  {
    var manifest := R.ManifestOf(worlds);
    var s := Ordered(sources)[j];
    var w :| w in worlds && Opens(s, w);
    var i :| 0 <= i < |worlds| && worlds[i] == w;
    assert w.Contract() == worlds[0].Contract();
    OpenedCompletion(manifest, s, w);
    assert RegistryFamily(worlds)[i] == CompletionOf(manifest)(s);
  }

  ghost predicate EachIn<T>(a: seq<T>, b: seq<T>) {
    forall i :: 0 <= i < |a| ==> a[i] in b
  }

  lemma EachInEachOther<T>(a: seq<T>, b: seq<T>)
    requires EachIn(a, b) && EachIn(b, a)
    ensures Elements(a) == Elements(b)
  {
  }

  lemma WorldsAreInFamily(worlds: seq<R.ProbeWorld>, sources: seq<Source>)
    requires R.ValidFamily(worlds) && R.ManifestOf(worlds).Valid() && SameWorlds(worlds, sources)
    ensures EachIn(RegistryFamily(worlds), Family(R.ManifestOf(worlds), sources))
  {
    forall i | 0 <= i < |worlds| ensures RegistryFamily(worlds)[i] in Family(R.ManifestOf(worlds), sources) {
      assert worlds[i] in worlds;
      WorldIsInFamily(worlds, sources, i);
    }
  }

  lemma SourcesAreInRegistry(worlds: seq<R.ProbeWorld>, sources: seq<Source>)
    requires R.ValidFamily(worlds) && R.ManifestOf(worlds).Valid() && SameWorlds(worlds, sources)
    ensures EachIn(Family(R.ManifestOf(worlds), sources), RegistryFamily(worlds))
  {
    OrderedElements(sources);
    forall j | 0 <= j < |Ordered(sources)| ensures Family(R.ManifestOf(worlds), sources)[j] in RegistryFamily(worlds) {
      assert Ordered(sources)[j] in Ordered(sources);
      SourceIsInRegistry(worlds, sources, j);
    }
  }

  /** The registry built from the worlds and the verifier given their sources
      see the same family of completions. */
  lemma SameFamily(worlds: seq<R.ProbeWorld>, sources: seq<Source>)
    requires R.ValidFamily(worlds) && R.ManifestOf(worlds).Valid() && SameWorlds(worlds, sources)
    ensures Elements(RegistryFamily(worlds)) == Elements(Family(R.ManifestOf(worlds), sources))
  {
    WorldsAreInFamily(worlds, sources);
    SourcesAreInRegistry(worlds, sources);
    EachInEachOther(RegistryFamily(worlds), Family(R.ManifestOf(worlds), sources));
  }

  ghost predicate Accepted(worlds: seq<R.ProbeWorld>) {
    && R.ValidFamily(worlds) && Distinct(R.Commitments(worlds)) && worlds[0].finite.atoms != []
    && R.ManifestOf(worlds).NamesFit()
    && forall w :: w in worlds ==> R.WellBehaved(w)
  }

  /** The registry that `Build` returns for an accepted family. */
  ghost function Built(worlds: seq<R.ProbeWorld>): R.CandidateRegistry
    requires worlds != []
  {
    R.CandidateRegistry(R.ManifestOf(worlds), Apply(worlds, R.CandidateOf))
  }

  lemma BuiltFamily(worlds: seq<R.ProbeWorld>, e: Evidence)
    requires Accepted(worlds)
    ensures R.ExactRegistry(Built(worlds))
    ensures Apply(Filter(Built(worlds).candidates, R.Fits(e)), R.AsCompletion) == Compatible(RegistryFamily(worlds), e)
  {
    R.BuiltRegistryIsExact(worlds);
    R.CompatibleCandidates(R.ManifestOf(worlds).atoms, Built(worlds).candidates, e);
  }

  // ---------- the verifier accepts what the registry accepts ----------

  lemma OpenedSubsetIsFulfilled(s: Source, w: R.ProbeWorld, chosen: Witness)
    requires OpensAt(s, w, Elements(chosen)) && StrictlySorted(StringLe, chosen)
    requires Oracle.Repeats(w.finite, chosen) && R.DeclaredReads(w, chosen)
    ensures Fulfils(s, w.stateChannels, chosen)
  {
    StringsAreOrdered();
    SortedSetUnique(StringLe, Elements(chosen), chosen);
    var channels := s.execute(Elements(chosen), 0).value.artifact.stateReads;
    forall c | c in channels ensures c in w.stateChannels {
      assert c in Elements(channels);
    }
  }

  /** A source of a well-behaved world passes the verifier's replays. */
  lemma OpenedSourceIsAccepted(s: Source, w: R.ProbeWorld)
    requires R.WellBehaved(w) && Opens(s, w)
    ensures PanelAccepted(s, w.finite.atoms, w.stateChannels)
  {
    var names := AtomNames(w.finite.atoms);
    AllSubsetsCanonical(names);
    forall chosen | chosen in AllSubsets(names) ensures Fulfils(s, w.stateChannels, chosen) {
      assert OpensAt(s, w, Elements(chosen));
      OpenedSubsetIsFulfilled(s, w, chosen);
    }
    AllFulfilMeans(s, w.stateChannels, AllSubsets(names));
    assert OpensAt(s, w, {});
  }

  ghost predicate ByCommitment(sources: seq<Source>, worlds: seq<R.ProbeWorld>) {
    Elements(Apply(sources, SourceCommitment)) == Elements(R.Commitments(worlds))
  }

  lemma SameWorldsSameCommitments(worlds: seq<R.ProbeWorld>, sources: seq<Source>)
    requires SameWorlds(worlds, sources)
    ensures ByCommitment(sources, worlds)
  {
    var a, b := Apply(sources, SourceCommitment), R.Commitments(worlds);
    forall x | x in a ensures x in b {
      var i :| 0 <= i < |a| && a[i] == x;
      assert sources[i] in sources && OpensSome(sources[i], worlds);
      var w :| w in worlds && Opens(sources[i], w);
      var j :| 0 <= j < |worlds| && worlds[j] == w;
      assert b[j] == x;
    }
    forall x | x in b ensures x in a {
      var j :| 0 <= j < |b| && b[j] == x;
      assert worlds[j] in worlds && OpenedBySome(sources, worlds[j]);
      var s :| s in sources && Opens(s, worlds[j]);
      var i :| 0 <= i < |sources| && sources[i] == s;
      assert a[i] == x;
    }
  }

  /** Sorting either list of commitments gives one list, if neither repeats any. */
  lemma SortedCommitments(a: seq<string>, b: seq<string>)
    requires Elements(a) == Elements(b) && Distinct(b) && |a| == |b|
    ensures Sort(StringLe, a) == Sort(StringLe, b)
  {
    DistinctCardinality(a);
    DistinctCardinality(b);
    SortedAndDistinct(a);
    SortedAndDistinct(b);
    StringsAreOrdered();
    SameMultiset(a, Sort(StringLe, a));
    SameMultiset(b, Sort(StringLe, b));
    StrictlySortedUnique(StringLe, Sort(StringLe, a), Sort(StringLe, b));
  }

  lemma SortedAndDistinct(a: seq<string>)
    requires Distinct(a)
    ensures StrictlySorted(StringLe, Sort(StringLe, a))
  {
    StringsAreOrdered();
    SortSorts(StringLe, a);
    DistinctPermutation(a, Sort(StringLe, a));
  }

  /** Ordering sources by commitment sorts their commitments. */
  lemma OrderedCommitments(sources: seq<Source>)
    ensures Apply(Ordered(sources), SourceCommitment) == Sort(StringLe, Apply(sources, SourceCommitment))
  {
    SortApply(CommitmentOrder(), StringLe, SourceCommitment, sources);
  }

  lemma EachSourceIsAccepted(worlds: seq<R.ProbeWorld>, sources: seq<Source>, s: Source)
    requires Accepted(worlds) && SameWorlds(worlds, sources) && s in sources
    ensures PanelAccepted(s, R.ManifestOf(worlds).atoms, R.ManifestOf(worlds).stateChannels)
    ensures forall n :: n in R.ManifestOf(worlds).probeNames ==> ProbeReproduces(s, n)
  {
    assert OpensSome(s, worlds);
    var w :| w in worlds && Opens(s, w);
    var i :| 0 <= i < |worlds| && worlds[i] == w;
    assert w.Contract() == worlds[0].Contract();
    OpenedSourceIsAccepted(s, w);
  }

  /** One sealed source for each world of an accepted family. */
  ghost predicate SealedFamily(worlds: seq<R.ProbeWorld>, sources: seq<Source>) {
    Accepted(worlds) && SameWorlds(worlds, sources) && |sources| == |worlds|
  }

  /** The verifier accepts the sealed sources of a family that the registry accepts. */
  lemma SealedSourcesAreAccepted(worlds: seq<R.ProbeWorld>, sources: seq<Source>)
    requires SealedFamily(worlds, sources)
    ensures SourcesAccepted(R.ManifestOf(worlds), R.ManifestOf(worlds), sources)
  {
    SameWorldsSameCommitments(worlds, sources);
    OrderedCommitments(sources);
    SortedCommitments(Apply(sources, SourceCommitment), R.Commitments(worlds));
    AcceptedManifest(worlds);
    forall s | s in sources ensures Accepts(R.ManifestOf(worlds))(s) {
      EachSourceIsAccepted(worlds, sources, s);
    }
    SourcesOfFamily(R.ManifestOf(worlds), sources);
  }

  lemma SourcesOfFamily(manifest: Manifest, sources: seq<Source>)
    requires manifest.Valid() && Apply(Ordered(sources), SourceCommitment) == manifest.candidateCommitments
    requires forall s :: s in sources ==> Accepts(manifest)(s)
    ensures SourcesAccepted(manifest, manifest, sources)
  {
    forall s | s in sources ensures PanelAccepted(s, manifest.atoms, manifest.stateChannels) {
      assert Accepts(manifest)(s);
    }
  }

  lemma AcceptedManifest(worlds: seq<R.ProbeWorld>)
    requires Accepted(worlds)
    ensures R.ManifestOf(worlds).Valid()
  {
    assert worlds[0] in worlds;
    R.ManifestIsValid(worlds);
  }

  /** Every probe that bound evidence asks for is reproduced by sealed sources. */
  lemma SealedProbesReproduce(worlds: seq<R.ProbeWorld>, sources: seq<Source>, e: Evidence)
    requires SealedFamily(worlds, sources) && Bound(R.ManifestOf(worlds), e)
    ensures ProbesReproduce(sources, e)
  {
    forall s, p | s in sources && p in e.probes ensures ProbeReproduces(s, p.name) {
      EachSourceIsAccepted(worlds, sources, s);
    }
  }

  /** Despite different candidate orders and different enumerations, the
      registry and the verifier reach the same diagnosis on any bound evidence
      and leave the same completions open. */
  lemma RegistryAndVerifierAgree(worlds: seq<R.ProbeWorld>, sources: seq<Source>, e: Evidence)
    requires Accepted(worlds) && SameWorlds(worlds, sources) && Bound(R.ManifestOf(worlds), e)
    ensures var verdict := R.Attribute(Built(worlds), e);
      var certificate := Judgement(R.ManifestOf(worlds), sources, e);
      && (verdict.Ok? <==> certificate.Some?)
      && (verdict.Ok? ==> verdict.value.diagnosis == certificate.value.diagnosis)
      && (verdict.Ok? ==>
            Elements(certificate.value.compatible)
            == set c | c in Filter(Built(worlds).candidates, R.Fits(e)) :: c.commitment)
  {
    var left := RegistryFamily(worlds);
    var right := Family(R.ManifestOf(worlds), sources);
    BuiltFamily(worlds, e);
    SameFamily(worlds, sources);
    SameCompatible(left, right, e);
    R.AttributeIsLicensed(Built(worlds), e);
    JudgementIsLicensed(R.ManifestOf(worlds), sources, e);
    if R.Attribute(Built(worlds), e).Ok? {
      LicensedUnique(Compatible(left, e), Compatible(right, e),
                     R.Attribute(Built(worlds), e).value.diagnosis,
                     Judgement(R.ManifestOf(worlds), sources, e).value.diagnosis);
      SameCommitments(Filter(Built(worlds).candidates, R.Fits(e)), Compatible(right, e));
    }
  }

  /** The certificate states the diagnosis of `attribute` and names its worlds. */
  ghost predicate Follows(r: R.CandidateRegistry, e: Evidence, certificate: Certificate) {
    && R.Attribute(r, e).Ok?
    && certificate.diagnosis == R.Attribute(r, e).value.diagnosis
    && Elements(certificate.compatible) == set c | c in Filter(r.candidates, R.Fits(e)) :: c.commitment
  }

  ghost predicate Attributable(worlds: seq<R.ProbeWorld>, e: Evidence)
    requires worlds != []
  {
    Bound(R.ManifestOf(worlds), e) && R.Attribute(Built(worlds), e).Ok?
  }

  lemma AcceptedIffAttributable(worlds: seq<R.ProbeWorld>, sources: seq<Source>, e: Evidence)
    requires SealedFamily(worlds, sources)
    ensures EvidenceAccepted(R.ManifestOf(worlds), sources, e) <==> Attributable(worlds, e)
  {
    if Bound(R.ManifestOf(worlds), e) {
      SealedProbesReproduce(worlds, sources, e);
      RegistryAndVerifierAgree(worlds, sources, e);
    }
  }

  lemma JudgementFollows(worlds: seq<R.ProbeWorld>, sources: seq<Source>, e: Evidence)
    requires SealedFamily(worlds, sources) && EvidenceAccepted(R.ManifestOf(worlds), sources, e)
    ensures Follows(Built(worlds), e, Judgement(R.ManifestOf(worlds), sources, e).value)
  {
    RegistryAndVerifierAgree(worlds, sources, e);
  }

  /** Whatever `verify_registry_attributions` answers on the sealed sources of a
      family that the registry accepts: it returns exactly for batches whose
      records `attribute` can all decide, and each certificate says what
      `attribute` says. */
  lemma VerifierFollowsRegistry(
      worlds: seq<R.ProbeWorld>, sources: seq<Source>, evidences: seq<Evidence>,
      r: Result<seq<Certificate>, VerificationError>)
    requires SealedFamily(worlds, sources) && 1 <= |evidences| <= MAX_EVIDENCE_BATCH
    requires r.Ok? <==> BatchAccepted(R.ManifestOf(worlds), R.ManifestOf(worlds), sources, evidences)
    requires r.Ok? ==> JudgesEach(R.ManifestOf(worlds), sources, evidences, r.value)
    ensures r.Ok? <==> forall e :: e in evidences ==> Attributable(worlds, e)
    ensures r.Ok? ==> |r.value| == |evidences|
    ensures r.Ok? ==> forall i :: 0 <= i < |evidences| ==> Follows(Built(worlds), evidences[i], r.value[i])
  {
    SealedSourcesAreAccepted(worlds, sources);
    forall e ensures EvidenceAccepted(R.ManifestOf(worlds), sources, e) <==> Attributable(worlds, e) {
      AcceptedIffAttributable(worlds, sources, e);
    }
    if r.Ok? {
      forall i | 0 <= i < |evidences| ensures Follows(Built(worlds), evidences[i], r.value[i]) {
        assert evidences[i] in evidences;
        JudgementFollows(worlds, sources, evidences[i]);
        assert JudgementOf(R.ManifestOf(worlds), sources)(evidences[i]) == Some(r.value[i]);
      }
    }
  }

  lemma SameCompatible(left: seq<Completion>, right: seq<Completion>, e: Evidence)
    requires Elements(left) == Elements(right)
    ensures Elements(Compatible(left, e)) == Elements(Compatible(right, e))
    ensures Compatible(left, e) == [] <==> Compatible(right, e) == []
  {
    forall c ensures c in Compatible(left, e) <==> c in Compatible(right, e) {
      assert c in Elements(left) <==> c in Elements(right);
    }
    assert Compatible(left, e) != [] ==> Compatible(left, e)[0] in Compatible(right, e);
    assert Compatible(right, e) != [] ==> Compatible(right, e)[0] in Compatible(left, e);
  }

  lemma SameCommitments(candidates: seq<R.WorldCandidate>, compatible: seq<Completion>)
    requires Elements(Apply(candidates, R.AsCompletion)) == Elements(compatible)
    ensures Elements(Apply(compatible, CompletionCommitment)) == set c | c in candidates :: c.commitment
  {
    var completions := Apply(candidates, R.AsCompletion);
    forall x | x in Elements(Apply(compatible, CompletionCommitment))
      ensures exists c :: c in candidates && c.commitment == x
    {
      var i :| 0 <= i < |compatible| && compatible[i].commitment == x;
      assert compatible[i] in Elements(completions);
      var j :| 0 <= j < |completions| && completions[j] == compatible[i];
      assert candidates[j] in candidates;
    }
    forall c | c in candidates ensures c.commitment in Apply(compatible, CompletionCommitment) {
      var j :| 0 <= j < |candidates| && candidates[j] == c;
      assert completions[j] in Elements(compatible);
      var i :| 0 <= i < |compatible| && compatible[i] == completions[j];
      assert Apply(compatible, CompletionCommitment)[i] == c.commitment;
    }
  }
}
