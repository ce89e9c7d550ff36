/** Batch attribution over one sealed source family
    (src/witnessgap/verifier.py:253-350, 702-769). */
module Batch {
  import opened Model
  import opened Order
  import opened Masks
  import opened Panels
  import opened Attribution
  import opened Verifier
  import opened Certificates

  // ---------- what the batch must compute ----------

  function SourceCommitment(s: Source): string {
    s.commitment
  }

  function CommitmentOrder(): (Source, Source) -> bool {
    (a: Source, b: Source) => StringLe(a.commitment, b.commitment)
  }

  function Ordered(sources: seq<Source>): seq<Source> {
    Sort(CommitmentOrder(), sources)
  }

  ghost function ExactPanel(atoms: seq<Atom>): Source -> VerifiedPanel {
    (s: Source) => VerifiedPanel(s.commitment, PanelOf(atoms, WorldOf(s)))
  }

  /** The completion behind a source: its exact panel and declared probes. */
  ghost function CompletionOf(manifest: Manifest): Source -> Completion {
    (s: Source) => Completion(
           s.commitment,
           PanelOf(manifest.atoms, WorldOf(s)),
           map n | n in manifest.probeNames && s.probe(n, 0).Some? :: s.probe(n, 0).value)
  }

  ghost function Family(manifest: Manifest, sources: seq<Source>): seq<Completion> {
    Apply(Ordered(sources), CompletionOf(manifest))
  }

  ghost function MatchingIndexes(family: seq<Completion>, e: Evidence): seq<nat> {
    Filter(Range(|family|), MatchesAt(family, e))
  }

  ghost function MatchesAt(family: seq<Completion>, e: Evidence): nat -> bool {
    (i: nat) => i < |family| && Matches(family[i], e)
  }

  /** The certificate that evidence `e` alone earns. */
  ghost function Judgement(manifest: Manifest, sources: seq<Source>, e: Evidence): Option<Certificate> {
    var family := Family(manifest, sources);
    var panels := Apply(Ordered(sources), ExactPanel(manifest.atoms));
    MatchingInRange(family, e);
    Derive(panels, MatchingIndexes(family, e), e, manifest)
  }

  lemma MatchingInRange(family: seq<Completion>, e: Evidence)
    ensures InRange(MatchingIndexes(family, e), |family|)
  {
    var indexes := MatchingIndexes(family, e);
    forall k | 0 <= k < |indexes| ensures indexes[k] < |family| {
      assert indexes[k] in indexes;
    }
  }

  /** Bound to the trusted registry and asking only for declared things. */
  predicate Bound(manifest: Manifest, e: Evidence) {
    && e.registry == manifest && e.coverage == manifest.CoverageDigest()
    && (forall p :: p in e.probes ==> p.name in manifest.probeNames)
    && (forall o :: o in e.interventions ==>
          forall n :: n in o.interventions ==> n in AtomNames(manifest.atoms))
  }

  ghost predicate ProbesReproduce(sources: seq<Source>, e: Evidence) {
    forall s, p :: s in sources && p in e.probes ==> ProbeReproduces(s, p.name)
  }

  ghost predicate EvidenceAccepted(manifest: Manifest, sources: seq<Source>, e: Evidence) {
    Bound(manifest, e) && ProbesReproduce(sources, e) && Judgement(manifest, sources, e).Some?
  }

  ghost predicate SourcesAccepted(manifest: Manifest, anchor: Manifest, sources: seq<Source>) {
    && manifest.Valid() && manifest == anchor
    && Apply(Ordered(sources), SourceCommitment) == manifest.candidateCommitments
    && forall s :: s in sources ==> PanelAccepted(s, manifest.atoms, manifest.stateChannels)
  }

  ghost predicate BatchAccepted(manifest: Manifest, anchor: Manifest, sources: seq<Source>, evidences: seq<Evidence>) {
    && 1 <= |evidences| <= MAX_EVIDENCE_BATCH
    && SourcesAccepted(manifest, anchor, sources)
    && forall e :: e in evidences ==> EvidenceAccepted(manifest, sources, e)
  }

  // ---------- the batch as it is computed ----------

  lemma OrderedElements(sources: seq<Source>)
    ensures |Ordered(sources)| == |sources|
    ensures forall s :: s in Ordered(sources) <==> s in sources
  {
    SameMultiset(sources, Ordered(sources));
    forall s ensures s in Ordered(sources) <==> s in sources {
      assert s in Elements(Ordered(sources)) <==> s in Elements(sources);
    }
  }

  ghost function Accepts(manifest: Manifest): Source -> bool {
    (s: Source) => PanelAccepted(s, manifest.atoms, manifest.stateChannels)
  }

  method VerifyOpening(source: Source, manifest: Manifest) returns (r: Result<VerifiedPanel, VerificationError>)
    requires StrictlySorted(StringLe, AtomNames(manifest.atoms))
    ensures r.Ok? <==> Accepts(manifest)(source)
    ensures r.Ok? ==> r.value == ExactPanel(manifest.atoms)(source)
  {
    var panel := VerifySourcePanel(source, manifest.atoms, manifest.stateChannels);
    if panel.Err? {
      return Err(panel.error);
    }
    r := Ok(VerifiedPanel(panel.value.commitment, panel.value.Shown()));
  }

  ghost predicate AllSatisfy<T>(s: seq<T>, ok: T -> bool) {
    s == [] || (AllSatisfy(s[..|s| - 1], ok) && ok(s[|s| - 1]))
  }

  lemma {:induction false} AllSatisfyMeans<T>(s: seq<T>, ok: T -> bool)
    ensures AllSatisfy(s, ok) <==> forall x :: x in s ==> ok(x)
  {
    if s != [] {
      AllSatisfyMeans(s[..|s| - 1], ok);
      assert s == s[..|s| - 1] + [s[|s| - 1]];
    }
  }

  lemma NextSatisfies<T>(s: seq<T>, ok: T -> bool, i: nat)
    requires i < |s|
    ensures AllSatisfy(s[..i + 1], ok) <==> AllSatisfy(s[..i], ok) && ok(s[i])
    ensures !ok(s[i]) ==> !AllSatisfy(s, ok)
  {
    assert s[..i + 1][..i] == s[..i];
    AllSatisfyMeans(s, ok);
    assert s[i] in s;
  }

  method VerifyPanels(ordered: seq<Source>, manifest: Manifest)
    returns (r: Result<seq<VerifiedPanel>, VerificationError>)
    requires StrictlySorted(StringLe, AtomNames(manifest.atoms))
    ensures r.Ok? <==> AllSatisfy(ordered, Accepts(manifest))
    ensures r.Ok? ==> r.value == Apply(ordered, ExactPanel(manifest.atoms))
  {
    var panels: seq<VerifiedPanel> := [];
    ghost var exact := Apply(ordered, ExactPanel(manifest.atoms));
    for i := 0 to |ordered|
      invariant panels == exact[..i] && AllSatisfy(ordered[..i], Accepts(manifest))
    {
      NextSatisfies(ordered, Accepts(manifest), i);
      var panel := VerifyOpening(ordered[i], manifest);
      if panel.Err? {
        return Err(panel.error);
      }
      PrefixGrows(panels, exact, i, panel.value);
      panels := panels + [panel.value];
    }
    assert ordered[..|ordered|] == ordered;
    r := Ok(panels);
  }

  /** `_matches_verified_evidence`; its lookups are all present. */
  predicate MatchesVerified(panel: Panel, e: Evidence, table: ProbeTable, i: nat)
    requires forall p :: p in e.probes ==> (i, p.name) in table
  {
    && Shows(panel, [], e.trace, e.outcome)
    && (forall p :: p in e.probes ==> table[(i, p.name)] == p.value)
    && (forall o :: o in e.interventions ==> Shows(panel, o.interventions, o.trace, o.outcome))
  }

  function RequestedNames(evidences: seq<Evidence>): seq<string> {
    StringsAreOrdered();
    SortedSet(StringLe, set e, p | e in evidences && p in e.probes :: p.name)
  }

  lemma RequestedNamesCover(evidences: seq<Evidence>)
    ensures forall n :: n in RequestedNames(evidences) <==>
      exists e, p :: e in evidences && p in e.probes && p.name == n
  {
    var names := set e, p | e in evidences && p in e.probes :: p.name;
    forall n ensures n in RequestedNames(evidences) <==> n in names {
      assert n in Elements(RequestedNames(evidences)) <==> n in names;
    }
  }

  lemma TableAgreesWithProbes(
      manifest: Manifest, ordered: seq<Source>, names: seq<string>, table: ProbeTable, i: nat, e: Evidence)
    requires i < |ordered| && TableCovers(table, ordered, names)
    requires Bound(manifest, e) && forall p :: p in e.probes ==> p.name in names
    ensures forall p :: p in e.probes ==> (i, p.name) in table
    ensures MatchesVerified(PanelOf(manifest.atoms, WorldOf(ordered[i])), e, table, i)
            <==> Matches(CompletionOf(manifest)(ordered[i]), e)
  {
    var c := CompletionOf(manifest)(ordered[i]);
    forall p | p in e.probes
      ensures (i, p.name) in table && p.name in c.probes && table[(i, p.name)] == c.probes[p.name]
    {
      assert p.name in names && ProbeReproduces(ordered[i], p.name);
    }
  }

  ghost function IndexesBelow(family: seq<Completion>, e: Evidence, n: nat): seq<nat> {
    Filter(Range(n), MatchesAt(family, e))
  }

  lemma NextIndex(family: seq<Completion>, e: Evidence, i: nat)
    requires i < |family|
    ensures IndexesBelow(family, e, i + 1)
      == IndexesBelow(family, e, i) + if Matches(family[i], e) then [i] else []
  {
    assert Range(i + 1) == Range(i) + [i];
    FilterAppend(Range(i), [i], MatchesAt(family, e));
    assert Filter([i], MatchesAt(family, e)) == if Matches(family[i], e) then [i] else [];
  }

  /** The evidence is admissible and every probe it needs is in the table. */
  ghost predicate Answerable(
    manifest: Manifest, ordered: seq<Source>, table: ProbeTable, e: Evidence)
  {
    forall i: nat :: i < |ordered| ==> AnswerableAt(manifest, ordered[i], table, i, e)
  }

  ghost predicate AnswerableAt(manifest: Manifest, source: Source, table: ProbeTable, i: nat, e: Evidence) {
    && (forall p :: p in e.probes ==> (i, p.name) in table)
    && (MatchesVerified(PanelOf(manifest.atoms, WorldOf(source)), e, table, i)
        <==> Matches(CompletionOf(manifest)(source), e))
  }

  lemma TableAnswers(manifest: Manifest, ordered: seq<Source>, names: seq<string>, table: ProbeTable, e: Evidence)
    requires TableCovers(table, ordered, names)
    requires Bound(manifest, e) && forall p :: p in e.probes ==> p.name in names
    ensures Answerable(manifest, ordered, table, e)
  {
    forall i: nat | i < |ordered| ensures AnswerableAt(manifest, ordered[i], table, i, e) {
      TableAgreesWithProbes(manifest, ordered, names, table, i, e);
    }
  }

  /** The compatible indexes of one evidence record. */
  method MatchEvidence(
      ghost manifest: Manifest, ghost ordered: seq<Source>, panels: seq<VerifiedPanel>,
      table: ProbeTable, e: Evidence)
    returns (indexes: seq<nat>)
    requires panels == Apply(ordered, ExactPanel(manifest.atoms))
    requires Answerable(manifest, ordered, table, e)
    ensures indexes == MatchingIndexes(Apply(ordered, CompletionOf(manifest)), e)
  {
    indexes := [];
    ghost var family := Apply(ordered, CompletionOf(manifest));
    for i := 0 to |panels|
      invariant indexes == IndexesBelow(family, e, i)
    {
      NextIndex(family, e, i);
      assert AnswerableAt(manifest, ordered[i], table, i, e);
      if MatchesVerified(panels[i].panel, e, table, i) {
        indexes := indexes + [i];
      }
    }
  }

  method DeriveOne(
      manifest: Manifest, ghost sources: seq<Source>, panels: seq<VerifiedPanel>, table: ProbeTable, e: Evidence)
    returns (certificate: Option<Certificate>)
    requires panels == Apply(Ordered(sources), ExactPanel(manifest.atoms))
    requires Answerable(manifest, Ordered(sources), table, e)
    ensures certificate == Judgement(manifest, sources, e)
  {
    var indexes := MatchEvidence(manifest, Ordered(sources), panels, table, e);
    MatchingInRange(Family(manifest, sources), e);
    certificate := Derive(panels, indexes, e, manifest);
  }

  ghost function JudgementOf(manifest: Manifest, sources: seq<Source>): Evidence -> Option<Certificate> {
    (e: Evidence) => Judgement(manifest, sources, e)
  }

  /** The i-th certificate is the judgement of the i-th evidence record alone. */
  ghost predicate JudgesEach(
    manifest: Manifest, sources: seq<Source>, evidences: seq<Evidence>, certificates: seq<Certificate>)
  {
    Answers(JudgementOf(manifest, sources), evidences, certificates)
  }

  ghost predicate SomeUnjudged(manifest: Manifest, sources: seq<Source>, evidences: seq<Evidence>) {
    exists k :: 0 <= k < |evidences| && Judgement(manifest, sources, evidences[k]).None?
  }

  /** The certificate loop over the evidence records. */
  method DeriveAll(
      manifest: Manifest, ghost sources: seq<Source>, panels: seq<VerifiedPanel>, table: ProbeTable,
      evidences: seq<Evidence>)
    returns (r: Result<seq<Certificate>, VerificationError>)
    requires panels == Apply(Ordered(sources), ExactPanel(manifest.atoms))
    requires forall k :: 0 <= k < |evidences| ==> Answerable(manifest, Ordered(sources), table, evidences[k])
    ensures r.Ok? ==> JudgesEach(manifest, sources, evidences, r.value)
    ensures r.Err? ==> SomeUnjudged(manifest, sources, evidences)
  {
    var certificates: seq<Certificate> := [];
    ghost var f := JudgementOf(manifest, sources);
    for i := 0 to |evidences|
      invariant Answers(f, evidences[..i], certificates)
    {
      var certificate := DeriveOne(manifest, sources, panels, table, evidences[i]);
      if certificate.None? {
        return Err(NoCompletionMatches);
      }
      AnswersNext(f, evidences, certificates, i, certificate.value);
      certificates := certificates + [certificate.value];
    }
    assert evidences[..|evidences|] == evidences;
    r := Ok(certificates);
  }

  lemma AcceptanceByOutcome(
      manifest: Manifest, sources: seq<Source>, names: seq<string>, evidences: seq<Evidence>,
      r: Result<seq<Certificate>, VerificationError>)
    requires forall e :: e in evidences ==> Bound(manifest, e)
    requires forall s, n :: s in Ordered(sources) && n in names ==> ProbeReproduces(s, n)
    requires names == RequestedNames(evidences)
    requires r.Ok? ==> JudgesEach(manifest, sources, evidences, r.value)
    requires r.Err? ==> SomeUnjudged(manifest, sources, evidences)
    ensures r.Ok? <==> forall e :: e in evidences ==> EvidenceAccepted(manifest, sources, e)
  {
    OrderedElements(sources);
    RequestedNamesCover(evidences);
    if r.Ok? {
      forall e | e in evidences ensures EvidenceAccepted(manifest, sources, e) {
        var i :| 0 <= i < |evidences| && evidences[i] == e;
      }
    } else {
      var k :| 0 <= k < |evidences| && Judgement(manifest, sources, evidences[k]).None?;
      assert evidences[k] in evidences;
    }
  }

  /** The sources exhaust the committed family, and every one of them verifies. */
  method VerifyFamily(sources: seq<Source>, manifest: Manifest)
    returns (r: Result<seq<VerifiedPanel>, VerificationError>)
    requires manifest.Valid()
    ensures r.Ok? <==> SourcesAccepted(manifest, manifest, sources)
    ensures r.Ok? ==> r.value == Apply(Ordered(sources), ExactPanel(manifest.atoms))
  {
    var ordered := Ordered(sources);
    if Apply(ordered, SourceCommitment) != manifest.candidateCommitments {
      return Err(SourcesDoNotExhaustFamily);
    }
    r := VerifyPanels(ordered, manifest);
    PanelsDecide(manifest, sources);
  }

  lemma PanelsDecide(manifest: Manifest, sources: seq<Source>)
    ensures AllSatisfy(Ordered(sources), Accepts(manifest))
      <==> forall s :: s in sources ==> PanelAccepted(s, manifest.atoms, manifest.stateChannels)
  {
    AllSatisfyMeans(Ordered(sources), Accepts(manifest));
    OrderedElements(sources);
    assert forall s :: Accepts(manifest)(s) <==> PanelAccepted(s, manifest.atoms, manifest.stateChannels);
  }

  /** The certificates of a batch, from verified panels and reproduced probes. */
  method AnswerBatch(
      manifest: Manifest, sources: seq<Source>, panels: seq<VerifiedPanel>, evidences: seq<Evidence>)
    returns (r: Result<seq<Certificate>, VerificationError>)
    requires panels == Apply(Ordered(sources), ExactPanel(manifest.atoms))
    requires forall e :: e in evidences ==> Bound(manifest, e)
    ensures r.Ok? <==> forall e :: e in evidences ==> EvidenceAccepted(manifest, sources, e)
    ensures r.Ok? ==> JudgesEach(manifest, sources, evidences, r.value)
  {
    var ordered := Ordered(sources);
    OrderedElements(sources);
    var names := RequestedNames(evidences);
    RequestedNamesCover(evidences);
    var table := VerifyBatchProbes(ordered, names);
    if table.Err? {
      ghost var s, n :| s in ordered && n in names && !ProbeReproduces(s, n);
      return Err(table.error);
    }
    forall k | 0 <= k < |evidences| ensures Answerable(manifest, ordered, table.value, evidences[k]) {
      assert evidences[k] in evidences;
      TableAnswers(manifest, ordered, names, table.value, evidences[k]);
    }
    r := DeriveAll(manifest, sources, panels, table.value, evidences);
    AcceptanceByOutcome(manifest, sources, names, evidences, r);
  }

  /** `verify_registry_attributions`. It returns exactly for acceptable input,
      and each certificate is the judgement of its own evidence record alone. */
  method VerifyRegistryAttributions(
      sources: seq<Source>, manifest: Manifest, anchor: Manifest, evidences: seq<Evidence>)
    returns (r: Result<seq<Certificate>, VerificationError>)
    ensures r.Ok? <==> BatchAccepted(manifest, anchor, sources, evidences)
    ensures r.Ok? ==> JudgesEach(manifest, sources, evidences, r.value)
  {
    if !ManifestCheck(manifest) {
      return Err(InvalidManifest);
    }
    if |evidences| == 0 || |evidences| > MAX_EVIDENCE_BATCH {
      return Err(BadBatch);
    }
    if manifest != anchor || exists e :: e in evidences && !Bound(manifest, e) {
      return Err(EvidenceUnbound);
    }
    var panels := VerifyFamily(sources, manifest);
    if panels.Err? {
      return Err(panels.error);
    }
    r := AnswerBatch(manifest, sources, panels.value, evidences);
  }
}
