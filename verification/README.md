# WitnessGap: causal attribution, proved

WitnessGap diagnoses a failed agent episode by replaying it under every subset of
a small set of interventions ("atoms"), keeping the inclusion-minimal repairs and
projecting them to causal targets. A registry of sealed completions then decides
what a piece of public evidence licenses: a definite target family, or an abstention
because two completions that both fit the evidence disagree. Workspace100 is the
benchmark built on this: twin completions that look alike, four evidence views of
each, private truth for every view, isolated workers that make claims, and exact
scores.

This project models that code in Dafny and proves what it is for. No bound is added:
the statements hold for every number of atoms (the two enumerators refuse more than
twelve, as the code does), every (non-monotone) success predicate, every family of
completions, every number of twin pairs, every interleaving of the worker's pipes,
every execution order and every list of observations.

## How the modules fit together

- `Order`, `Model`, `Permutations`: Python's `sorted`, `combinations`-style
  comprehensions and the shared types.
- `Subsets`, `Masks`, `Repairs`, `Panels`, `Oracle`: the repair panel. One
  specification (`Panels.PanelOf`) and its three implementations.
- `Attribution`, `Registry`, `Verifier`, `Certificates`, `Batch`, `Agreement`: what
  evidence licenses, the registry, the independent verifier, its certificates and the
  batch interface.
- `Inquiry`: asking the registry about one world again and again.
- `Records`, `Generation`, `Runtime`, `SingleCause`, `Views`, `Twins`, `Materials`,
  `Projection`, `Projector`, `Routing`, `Routes`, `ViewCounts`, `Verdicts`, `Truth`,
  `RouteCases`, `Authoring`, `TruthSet`, `Denominators`, `Corpora`, `TruthBuilder`,
  `Pipeline`: from authored variants to public views and private truth.
- `WorkspaceWorld`: the smaller two-completion world.
- `Exchange`, `WorkerRun`: the worker exchange loop and the outcome it is normalised to.
- `Claims`, `ClaimRuns`, `ClaimContext`, `ClaimAssembly`: the claim matrix.
- `Ratios`, `Scores`, `Slices`, `Classifier`, `Metrics`, `Baselines`, `ClaimScoring`,
  `Macros`: exact scoring, and the join of claims with truth.

Objects that the source mutates are classes (`Exchange.ExchangeState`,
`Runtime.RecordingState`, `Runtime.Runner`, `WorkspaceWorld.Runner`,
`Claims.Backends`); its loops are methods with invariants, each proved against a
specification function or a property; its pure code is functions and lemmas.

Digests are represented by what they commit to. Where the source compares two
digests, the model compares preimages, or takes the digest function as a parameter
with "unequal inputs have unequal digests" as an explicit hypothesis
(`Identities.Binding`, `Protocol.Binding`). A world or sealed source answers
by subset and attempt number, or not at all: every call of one enumeration has an answer
of its own, so replays that raise or disagree are part of the model.

Three places where the code does not promise what one would expect are stated as they are:

- No record validator keeps a template's epoch probe from being named
  `workspace_owner`, which is the name of the probe that every manifest adds.
- The record validators accept names of up to 96 characters (`records.py:18`), while
  atoms, state reads and manifests take 64 (`model.py:10`, `identifiability.py:23`).
  `Twins.ManifestIsValid` is an equivalence that covers both: the manifest of twins is
  valid exactly if the epoch probe does not clash and seven names fit.
  `Twins.ClashingTemplateFails` and `Twins.OverlongNameFails` are a concrete template for
  each. A replay and the independent verifier need fewer names to fit
  (`Runtime.ReplayOnce`, `Twins.SourceIsAccepted`). Later results carry the
  condition as `Declarable`.
- Opaque identifiers are truncated digests, so the code checks that they are
  unique across a corpus instead of relying on it. The end-to-end results therefore take
  that check (`Corpora.UniqueIdentities`) as their hypothesis.

## Model

| member | source | states |
|---|---|---|
| Order.SortOfPermutation | src/witnessgap/verifier.py:310-314 | `sorted` gives the same list for any permutation of its input, as soon as the key tells the elements apart |
| Order.SortedSet | src/witnessgap/oracle.py:101-110 | `tuple(sorted(s))` is the strictly sorted list with exactly the elements of `s` |
| Order.SortedUnique | src/witnessgap/identifiability.py:908-916 | `tuple(sorted(set(names))) == names` holds exactly of strictly sorted lists |
| Subsets.CombinationsExact | src/witnessgap/oracle.py:82-83 | `combinations(names, size)` lists exactly the sorted tuples of that size over the names |
| Subsets.AllSubsetsCanonical | src/witnessgap/workspace100/views.py:1478-1481 | the enumeration by size is complete, repeats nothing, and is in (size, tuple) order |
| Masks.AndIsInclusion | src/witnessgap/verifier.py:541-546 | the bitmask test `other & mask == other` is set inclusion of the decoded witnesses, for any number of atoms |
| Masks.MaskInjective | src/witnessgap/verifier.py:860-861 | distinct masks decode to distinct sets of atoms |
| Masks.MaskSize | src/witnessgap/verifier.py:860-861 | a mask decodes to as many atoms as it has bits |
| Masks.SortedMasksDecode | src/witnessgap/verifier.py:496-503 | all masks sorted by (popcount, witness) decode to exactly the reference enumeration |
| Repairs.SuccessContainsMinimal | src/witnessgap/oracle.py:96-103 | every success of an arbitrary predicate contains a minimal success |
| Repairs.MinimaAreMinimalSets | src/witnessgap/oracle.py:96-103 | comparing the successes pairwise finds exactly the successes all of whose strict subsets fail |
| Repairs.TwoStageMinimisation | src/witnessgap/oracle.py:104-110 | minimising, projecting to targets and minimising again equals projecting every success and minimising once |
| Repairs.TargetSetsShape | src/witnessgap/oracle.py:104-110 | the target family is an antichain, is empty exactly when nothing succeeds, and never contains the empty set if the unmodified episode fails |
| Panels.MinimalBySetsAgrees | src/witnessgap/oracle.py:99-103 | the frozenset test over the successes, in enumeration order, keeps exactly the minimal successes |
| Panels.MinimalByMasksAgrees | src/witnessgap/verifier.py:538-547 | the bitmask test keeps the same witnesses in the same order |
| Panels.MinimalByTuplesAgrees | src/witnessgap/workspace100/views.py:1484-1494 | the tuple-subset test on a panel's receipts keeps the same witnesses in the same order |
| Panels.MinimalWitnessesProject | src/witnessgap/workspace100/views.py:1497-1506 | the family computed from minimal witnesses alone is the family of all successes |
| Panels.ThreeEnumerationsAgree | src/witnessgap/verifier.py:496-553 | for any sorted atoms and any world the three enumerations give one order of subsets, one list of minimal witnesses and one target family |
| Panels.ValidPanelsAreExact | src/witnessgap/workspace100/views.py:1387-1440 | a panel passes the independent validator iff it is the panel of some world whose unmodified episode fails |
| Panels.ReceiptsAreSorted | src/witnessgap/oracle.py:41-55 | a valid panel answers `receipt_for` for exactly the sorted tuples over its atoms, so an unsorted argument finds nothing |
| Oracle.ReplayAllSubsets | src/witnessgap/oracle.py:82-95 | the enumeration loop replays the subsets in order, twice each, and either records every one or stops at the first that diverges |
| Oracle.ReplayRow | src/witnessgap/oracle.py:83-95 | the inner loop over one size extends the record by that size, or reports the first divergence |
| Oracle.EnumerateRepairPanel | src/witnessgap/oracle.py:57-122 | succeeds iff the atoms are admissible, every replay returns and repeats, the baseline fails and the world keeps its name and atoms; the result is the specified panel with the complete result of every replay, and each refusal is pinned to its cause |
| Attribution.LicensedUnique | src/witnessgap/identifiability.py:726-782 | at most one verdict is licensed, and it depends on which completions are compatible, not on their order |
| Attribution.VerdictsAreSound | src/witnessgap/identifiability.py:726-782 | a verdict is definite iff all compatible completions share the truth's family, and then it is the truth's |
| Attribution.ManyProfiles | src/witnessgap/verifier.py:367-371 | the set-size test `len(profiles) > 1` holds iff some later profile differs from the first |
| Attribution.OtherExists | src/witnessgap/verifier.py:371-373 | the search for an item that disagrees with the first finds one iff there are several profiles; the registry and the verifier both search so |
| Attribution.GenuineFamilyShape | src/witnessgap/verifier.py:1007-1024 | the family of a genuine panel is a sorted antichain of sorted, non-empty target sets |
| Attribution.OutcomesDetermineFamily | src/witnessgap/oracle.py:93-110 | two worlds with the same outcomes on every subset have the same target family, whatever their traces |
| Attribution.FullEvidenceDecides | src/witnessgap/identifiability.py:726-810 | evidence that reveals the outcome of every non-empty subset never leaves a verdict ambiguous, for any family over one contract |
| Attribution.CompatibleShrinks | src/witnessgap/identifiability.py:791-810 | along any run of observations of one completion the compatible set only shrinks and keeps that completion |
| Attribution.DiagnosisChangesOnce | src/witnessgap/identifiability.py:726-810 | along such a run the diagnosis changes at most once, from ambiguous to the true one |
| Registry.ValidatedPanel | src/witnessgap/identifiability.py:878-893 | a world is accepted iff its panel enumerates and every replay reads only declared channels; the result is its exact panel |
| Registry.Build | src/witnessgap/identifiability.py:633-678 | accepts exactly the well-formed families with well-behaved worlds and distinct commitments, and keeps one exact panel per world in the given order |
| Registry.CompatibleCandidates | src/witnessgap/identifiability.py:791-810 | the candidates kept by `_is_compatible` are the matching completions, in order |
| Registry.VerdictIsLicensed | src/witnessgap/identifiability.py:740-782 | the branching on profiles yields the licensed verdict, with two disagreeing compatible worlds named iff it is ambiguous |
| Registry.AttributeIsLicensed | src/witnessgap/identifiability.py:726-782 | `attribute` fails only if no world matches, and otherwise issues exactly the licensed verdict |
| Registry.ObserveAnswersExactly | src/witnessgap/identifiability.py:680-724 | `observe` answers exactly the sorted, declared requests about a known world, and reports exactly the probes and subsets asked for, in order |
| Registry.ObservationsMatch | src/witnessgap/identifiability.py:680-724 | what `observe` reports of a world is true of that world |
| Registry.ObservedWorldIsAttributed | src/witnessgap/identifiability.py:680-782 | attributing an observation of a registered world never fails, and a definite answer is that world's own family |
| Inquiry.DiagnosisSettles | src/witnessgap/identifiability.py:680-782 | growing requests about one registered world, each observed and attributed, change the diagnosis at most once: from ambiguous to that world's own family |
| Inquiry.EveryRequestIsDiagnosed | src/witnessgap/identifiability.py:680-782 | none of those requests is refused a diagnosis |
| Inquiry.FullRequestSettles | src/witnessgap/identifiability.py:680-782 | a request for every non-empty subset of the atoms is always answered with the world's own family |
| Verifier.ExecuteTwice | src/witnessgap/verifier.py:505-528 | succeeds iff two fresh executions exist, agree, log exactly the requested subset and read only declared channels |
| Verifier.ReplayMasks | src/witnessgap/verifier.py:496-536 | the replay loop succeeds iff every decoded subset is fulfilled, and returns its receipts and the set of successful masks |
| Verifier.VerifySourcePanel | src/witnessgap/verifier.py:481-568 | the bitmask verifier accepts exactly the sources that decode before and after, fulfil every subset and fail unmodified, and rebuilds the specified panel with the complete artifact of every subset |
| Verifier.VerifyBatchProbes | src/witnessgap/verifier.py:682-699 | succeeds iff every source reproduces every requested probe, and then the table answers every lookup |
| Certificates.ConcludeIsLicensed | src/witnessgap/verifier.py:353-422 | the derived conclusion is the licensed verdict on the compatible profiles, with a pair iff it is ambiguous |
| Certificates.AmbiguityPairIsValid | src/witnessgap/verifier.py:1027-1036 | the ambiguity pair is strictly ordered and both members are among at least two compatible commitments |
| Certificates.DerivedCertificatesValidate | src/witnessgap/verifier.py:997-1095 | every certificate derived from genuine panels in commitment order passes every closed validator |
| Certificates.ShapeFixesKind | src/witnessgap/verifier.py:1039-1095 | a valid certificate with a target family has the one kind that the family's shape calls for |
| Batch.TableAgreesWithProbes | src/witnessgap/verifier.py:702-728 | matching against the probe table is matching against the source itself, and no lookup is missing |
| Batch.MatchEvidence | src/witnessgap/verifier.py:331-340 | the loop returns exactly the indexes of the completions that the evidence fits |
| Batch.DeriveAll | src/witnessgap/verifier.py:329-350 | the certificate loop issues the judgement of each record, or stops at one that nothing fits |
| Batch.VerifyRegistryAttributions | src/witnessgap/verifier.py:270-350 | returns iff the manifest is valid and trusted and the sources and evidence are acceptable, and its i-th certificate is the judgement of the i-th record alone |
| Agreement.JudgementIsLicensed | src/witnessgap/verifier.py:353-422 | a judgement states the licensed verdict and names exactly the compatible completions in commitment order |
| Agreement.JudgementsValidate | src/witnessgap/verifier.py:966-1095 | no certificate issued for an accepted source family is rejected by the certificate validators |
| Agreement.SourceOrderIsIrrelevant | src/witnessgap/verifier.py:270-350 | permuting the source openings changes neither the acceptance of a whole batch, probe reproduction included, nor any certificate |
| Agreement.BatchIsPointwise | src/witnessgap/verifier.py:253-350 | within the batch bound, a batch is accepted iff each of its records is accepted on its own |
| Agreement.SameFamily | src/witnessgap/verifier.py:577-622 | a registry over worlds and a verifier over their sealed sources see the same family of completions |
| Agreement.RegistryAndVerifierAgree | src/witnessgap/identifiability.py:726-782 | on any bound evidence a judgement exists iff `attribute` succeeds, and then diagnosis and compatible commitments are the same, although orders and enumerations differ |
| Agreement.SealedSourcesAreAccepted | src/witnessgap/verifier.py:577-622 | the verifier accepts the sealed sources of every family of worlds that the registry accepts |
| Agreement.SealedProbesReproduce | src/witnessgap/verifier.py:682-699 | every probe that bound evidence asks for is reproduced by the sealed sources |
| Agreement.VerifierFollowsRegistry | src/witnessgap/verifier.py:270-350 | whatever the batch interface answers on those sources: it returns iff `attribute` can decide every record, and then each certificate has the diagnosis and the open completions of `attribute` |
| Records.ResolveFinds | src/witnessgap/workspace100/records.py:541-548 | a resolved identifier is bound to the selector, and failure means that nothing is |
| Records.ResolverIsMapping | src/witnessgap/workspace100/records.py:520-538 | a valid resolver over two distinct selectors is the sorted two-entry mapping of what they resolve to |
| Records.ContractIsExact | src/witnessgap/workspace100/records.py:479-517 | the resolver contract accepts a record iff the record has one explicit shape: a fixed refresh mapping and an initial mapping set by the alignment |
| Generation.ContractForcesMatrix | src/witnessgap/workspace100/generation.py:306-319 | the contract alone fixes the four-cell intervention matrix |
| Generation.OneInterventionDecides | src/witnessgap/workspace100/generation.py:456-467 | a record resolves to the intended object iff its one causal intervention is applied |
| Generation.SharedSourcePayload | src/witnessgap/workspace100/generation.py:447-453 | the key-deleting loop leaves exactly the payload without the initial-state fields |
| Generation.SharedPayloadMeans | src/witnessgap/workspace100/generation.py:447-453 | two records share their payload iff they differ in nothing but the initial state |
| Generation.TwinConstructionIsExact | src/witnessgap/workspace100/generation.py:424-444 | for valid records the construction check passes iff payloads are shared and the sides are complementary; its matrix and resolver tests never decide |
| Generation.AuthoredRecordsAreTwins | src/witnessgap/workspace100/generation.py:322-402 | every valid template and variant author two valid complementary twins |
| Generation.PairOfIsValid | src/witnessgap/workspace100/generation.py:75-130 | the sealed pair passes every pair check if commitments bind |
| Generation.GeneratePair | src/witnessgap/workspace100/generation.py:237-268 | one iteration of the generator, for a valid template and variant, passes its own pair checks and returns the specified pair |
| Generation.GeneratePairs | src/witnessgap/workspace100/generation.py:224-274 | a valid catalogue of any size becomes one pair per variant, in order |
| Generation.GeneratedPairsAreValid | src/witnessgap/workspace100/generation.py:88-130 | each generated pair passes the pair validators |
| Runtime.RecordingState.ReadSelection | src/witnessgap/workspace100/runtime.py:70-73 | returns the selection and appends one numbered read to the log |
| Runtime.RecordingState.ReadResolver | src/witnessgap/workspace100/runtime.py:75-89 | returns the resolver and appends one numbered read with its epoch to the log |
| Runtime.BuildArtifact | src/witnessgap/workspace100/runtime.py:416-450 | the artifact built through the recording state is the one specified for the completion and the interventions |
| Runtime.Runner.Run | src/witnessgap/workspace100/runtime.py:106-123 | a runner works once; a second run is refused |
| Runtime.ExecutionIsExact | src/witnessgap/workspace100/runtime.py:416-464 | a valid record always resolves: an execution fails iff some name it records exceeds the core bound, and otherwise succeeds under exactly the subsets that contain its causal atom |
| Runtime.ArtifactsAreExact | src/witnessgap/workspace100/runtime.py:295-315 | the artifact validator returns an outcome iff some run of this very completion produces that artifact with that outcome |
| Runtime.ReplayOnce | src/witnessgap/workspace100/runtime.py:317-323 | a replay succeeds iff the interventions are declared and the names it records fit the core, and returns the specified result |
| SingleCause.SingleCausePanel | src/witnessgap/oracle.py:96-110 | an episode that one atom decides has that atom as its only minimal repair and its target as its only family, whatever else is declared |
| Attribution.ManifestCheck | src/witnessgap/identifiability.py:420-494 | the computed manifest checks hold exactly of valid manifests |
| Views.GoodTwinsHaveFacts | src/witnessgap/workspace100/views.py:930-981 | material that passes the twin checks has complementary targets, equal failing baselines, equal owner and unequal epoch probes |
| Views.ProjectionShows | src/witnessgap/workspace100/views.py:679-716 | projection never fails on such material and shows exactly what its view exposes |
| Views.ShownOfOther | src/witnessgap/workspace100/views.py:679-716 | what a view shows of one twin is true of the other iff the view is neutral |
| Views.TwinsDifferOnInformativeViews | src/witnessgap/workspace100/views.py:679-716 | twins project to one evidence record under trace-only and owner views and to two under epoch and refresh views |
| Twins.RuntimeDecides | src/witnessgap/workspace100/runtime.py:416-464 | one atom decides the outcome of every declared subset of a valid completion, and the unmodified episode fails |
| Twins.SourceIsAccepted | src/witnessgap/verifier.py:481-568 | the independent verifier accepts a valid runtime completion iff the core can record its atoms and channels |
| Twins.RuntimePanel | src/witnessgap/workspace100/runtime.py:416-464 | selector-aligned completions have panel {refresh} and environment, the others {repair} and policy, and the panel passes the validator |
| Twins.GeneratedPairsAreTwins | src/witnessgap/workspace100/generation.py:424-444 | every valid generated pair decodes to twins: valid, complementary, and alike in everything but the initial state |
| Twins.TwinBaseline | src/witnessgap/workspace100/runtime.py:485-521 | twins fail unmodified with byte-identical public traces |
| Twins.TwinProbes | src/witnessgap/workspace100/runtime.py:279-286 | twins answer the owner probe alike and the epoch probe differently |
| Twins.ManifestIsValid | src/witnessgap/workspace100/views.py:755-780 | the manifest of twins is valid iff the epoch probe is not named like the owner probe and seven names (task schema, task, both atoms, epoch probe, both channels) are at most 64 characters long |
| Twins.ClashingTemplateFails | src/witnessgap/workspace100/records.py:98-127 | a concrete template that the record validator accepts and whose twins have no valid manifest |
| Twins.OverlongNameFails | src/witnessgap/workspace100/records.py:96-111 | a template with an 80-character epoch probe that clashes with nothing: the record validator accepts it, its twins run, and they have no valid manifest |
| Materials.VerifySourceProbe | src/witnessgap/verifier.py:444-478 | succeeds iff the probe answers and reproduces, and returns that answer |
| Materials.VerifyPairMaterial | src/witnessgap/workspace100/views.py:719-752 | verification of twins fails iff their manifest is one that the exact condition refuses, and otherwise yields the specified material |
| Materials.TwinsAreValidMaterial | src/witnessgap/workspace100/views.py:930-981 | the material of twins passes the twin validator |
| Materials.PairMaterialIsValid | src/witnessgap/workspace100/views.py:159-202 | the material of twins passes the pair validator |
| Materials.TwinsYieldGoodMaterial | src/witnessgap/workspace100/views.py:880-981 | source validation and a shared payload alone give material that passes every pair and twin check |
| Projection.EvidenceDetermines | src/witnessgap/workspace100/views.py:679-716 | two projections are equal iff they come from one view and, unless it is neutral, from one twin |
| Projection.PatternBinds | src/witnessgap/workspace100/views.py:635-647 | a pair's eight projections add exactly six cases to an index that does not know its registry |
| Projector.ValidateMaterials | src/witnessgap/workspace100/views.py:880-927 | the loop accepts exactly lists of good material in which no identity is used twice |
| Projector.ProjectionNeverCollides | src/witnessgap/workspace100/views.py:595-676 | over any number of pairs with distinct registries indexing keeps six cases per pair and never meets a digest collision |
| Projector.ProjectSide | src/witnessgap/workspace100/views.py:615-656 | the view loop extends the index, and lists the four assignments and the route of one twin |
| Projector.ProjectAll | src/witnessgap/workspace100/views.py:607-665 | the projection loops compute the index, the assignments and the routes of all pairs |
| Projector.ProjectVerifiedMaterials | src/witnessgap/workspace100/views.py:595-676 | succeeds iff the sorted material is admissible, returns the specified views, and never reports a collision |
| Routes.DigestCount | src/witnessgap/workspace100/views.py:1157-1170 | a case's digest is assigned twice under a neutral view and once otherwise, only within its own pair |
| Routes.EpisodeCount | src/witnessgap/workspace100/views.py:1173-1199 | each episode has four assignments, one for every view |
| Routes.CasesAreDistinct | src/witnessgap/workspace100/views.py:1072-1078 | no two cases of a whole projection show the same evidence |
| Routes.EveryAssignmentJoins | src/witnessgap/workspace100/views.py:1102-1154 | every assignment joins exactly a listed case, route and side |
| Routes.ViewsAreOrdered | src/witnessgap/workspace100/views.py:1039-1045 | cases, assignments and routes come out in their canonical orders |
| Routes.ProjectedViewsAreValid | src/witnessgap/workspace100/views.py:1018-1199 | for any number of admissible pairs the views have 8 assignments and 6 cases per pair and pass the order, join, multiplicity and episode validators |
| ViewCounts.PublicCasesAreValid | src/witnessgap/workspace100/views.py:394-428 | each projected case shows what its view is for and no more, under the split of its template |
| ViewCounts.ViewsAreCounted | src/witnessgap/workspace100/views.py:1202-1237 | for N pairs: the view, template, split and template-by-view counts of assignments and cases, and eight assignments to six digests a pair |
| ViewCounts.ViewsAreValid | src/witnessgap/workspace100/views.py:473-484 | for any number of admissible pairs the projection passes every check of its validator but the scan for private text |
| Verdicts.CompatibleIffSameProjection | src/witnessgap/verifier.py:702-728 | a completion is compatible with projected evidence iff its own projection under that view is the same evidence |
| Verdicts.ViewCompatibility | src/witnessgap/verifier.py:702-728 | neutral views leave both twins open and informative ones only the twin that was observed |
| Verdicts.ViewVerdict | src/witnessgap/verifier.py:353-422 | neutral views earn the ambiguous certificate naming both twins, informative views the observed twin's singleton target |
| Verdicts.ViewRoot | src/witnessgap/verifier.py:353-422 | the panel root of a certificate marks exactly the twins that its view leaves open |
| Truth.ExpectedSourcesAre | src/witnessgap/workspace100/truth.py:715-751 | a case routes back to both twins under a neutral view and to the shown twin otherwise |
| Truth.AuthoringSucceeds | src/witnessgap/workspace100/truth.py:418-452 | authoring refuses no projected case |
| Truth.TruthHasShape | src/witnessgap/workspace100/truth.py:546-576 | each authored case has the certificate shape and the minimal witnesses that its view requires |
| Truth.TruthIsRouted | src/witnessgap/workspace100/truth.py:715-774 | each authored case passes the route, assignment, compatibility and verdict checks |
| RouteCases.PublicCasesForRoute | src/witnessgap/workspace100/truth.py:509-520 | the digest lookup succeeds iff the route names six digests and a case is listed for each, and returns those cases in case order |
| RouteCases.RouteCasesAre | src/witnessgap/workspace100/truth.py:509-520 | inside any projection the lookup finds exactly the six cases of its own pair, in case order |
| TruthSet.TruthKeepsCases | src/witnessgap/workspace100/truth.py:631-684 | the public cases of the truth, in its order, are the projected cases |
| TruthSet.TruthKeepsAssignments | src/witnessgap/workspace100/truth.py:631-684 | the assignments rebuilt from the truth are the projected ones |
| TruthSet.TruthBindsProjection | src/witnessgap/workspace100/truth.py:609-628 | the views rebuilt from the truth are exactly the views it was authored for |
| TruthSet.RoutesAreValid | src/witnessgap/workspace100/truth.py:687-712 | routes come in order, are valid one by one and repeat no identity |
| TruthSet.CasesAreValid | src/witnessgap/workspace100/truth.py:715-774 | each case of the truth joins one route and passes every check on it |
| TruthSet.AuthoredOrder | src/witnessgap/workspace100/truth.py:408-415 | sorting the cases of all pairs gives the truth, however the cases of one pair are arranged |
| Denominators.TotalsAreValid | src/witnessgap/workspace100/truth.py:777-812 | for N pairs: 6N distinct digests and certificates, the view, verdict and target totals, and six cases for each route of a template or split |
| Denominators.MatrixIsValid | src/witnessgap/workspace100/truth.py:815-843 | every pair has its six-case matrix of views, targets and panel roots |
| Denominators.RootIsUsedTwice | src/witnessgap/workspace100/truth.py:846-849 | the panel root of each case of a pair occurs in exactly two cases of the whole truth |
| Denominators.PairHasThreeRoots | src/witnessgap/workspace100/truth.py:815-843 | the six cases of a pair have three panel roots |
| Denominators.NamedFourTimes | src/witnessgap/workspace100/truth.py:850-856 | each completion is named by exactly four certificates |
| Denominators.MultiplicitiesAreValid | src/witnessgap/workspace100/truth.py:846-864 | for N pairs: 3N panel roots used twice, completions named four times, and the totals of open and unwitnessed cases |
| Denominators.TruthIsValid | src/witnessgap/workspace100/truth.py:298-309 | for any number of admissible pairs the truth passes every modelled check of its validator: order, projection binding, routes, cases and counts |
| Authoring.TwinsAsFamily | src/witnessgap/verifier.py:577-622 | the verifier and the view builder see the same two completions |
| Authoring.AssignedEpisodesAre | src/witnessgap/workspace100/truth.py:484-506 | in any projection the episodes assigned to a case are exactly the twins it came from, in route order |
| Authoring.ShotEarns | src/witnessgap/verifier.py:270-422 | each view's evidence is accepted by the verifier and earns its exact certificate |
| Authoring.TwinBatchAccepted | src/witnessgap/verifier.py:270-350 | the evidence records of a pair are accepted in one batch, in any order and selection within the batch bound |
| Authoring.RouteIsAuthored | src/witnessgap/workspace100/truth.py:1347-1403 | the evidence route of a projected pair is accepted, unchanged, as its truth route |
| Authoring.SlotIsJudged | src/witnessgap/verifier.py:270-350 | the evidence of each of the six slots is judged to be exactly the certificate that its view calls for |
| Authoring.AuthorCases | src/witnessgap/workspace100/truth.py:397-406 | the inner loop refuses nothing and authors the specified case for each public case and its certificate |
| Authoring.AuthorPair | src/witnessgap/workspace100/truth.py:379-406 | for a pair inside any projection, its cases are found by their digests, both panels and all certificates are issued, and exactly the specified truth cases result |
| Corpora.VariantsAreTwins | src/witnessgap/workspace100/generation.py:322-369 | each valid variant decodes to twins of its own template |
| Corpora.UniqueInAnyOrder | src/witnessgap/workspace100/views.py:880-927 | admissibility of good, unique material does not depend on its order |
| Corpora.CorpusIsAdmissible | src/witnessgap/workspace100/views.py:880-927 | the materials of a corpus with unique identities are admitted in projection order |
| Pipeline.BuildMaterials | src/witnessgap/workspace100/views.py:567-584 | verification of any number of known twin pairs returns their materials in order |
| TruthBuilder.AuthorRoutes | src/witnessgap/workspace100/truth.py:365-378 | the route loop finds and accepts one route for every pair of the corpus |
| TruthBuilder.RoutesSort | src/witnessgap/workspace100/truth.py:365-378 | sorting the authored routes gives the routes of the projection |
| TruthBuilder.AuthorCasesOf | src/witnessgap/workspace100/truth.py:379-406 | the case loop over the sorted routes finds each pair and returns exactly its specified cases |
| TruthBuilder.BuildTruth | src/witnessgap/workspace100/truth.py:345-415 | authoring from a corpus and its own projection returns exactly the specified truth set, routes and cases sorted |
| Pipeline.ScanCases | src/witnessgap/workspace100/views.py:1240-1260 | the scan loop passes iff no public case shows a private marker |
| Pipeline.BuildViews | src/witnessgap/workspace100/views.py:587-676 | the projection of admissible materials is the specified one, or refused iff the scan finds private text |
| Pipeline.ReleaseIsValid | src/witnessgap/workspace100/truth.py:298-309 | views and truth of any number of admissible pairs pass every modelled validator of either |
| Pipeline.BuildCorpus | src/witnessgap/workspace100/views.py:567-676 | from any number of known twin pairs with unique identities the result is exactly the specified release, or the scan's refusal iff a public case shows private text; the release passes every modelled check on views and truth sets |
| Pipeline.BuildRelease | src/witnessgap/workspace100/generation.py:224-274 | the same from any list of valid variants of trusted templates: of the modelled checks between the catalogue and the truth only the text scan can refuse |
| Pipeline.ExactClaimsNameTheCause | src/witnessgap/workspace100/scoring.py:1889-1932 | from records to scores: every case of a release shows one side of one pair, and full marks go to exactly the claims that name the one intervention that this record's construction makes causal, or abstain where twins look alike |
| Pipeline.BaselinesOnRelease | src/witnessgap/workspace100/baselines.py:899-914 | over the truth of every such release a baseline scores exactly its per-pair counts, times the number of pairs |
| Pipeline.BaselineScoreOnRelease | src/witnessgap/workspace100/scoring.py:1735-1808 | through the claim matrix: under every schedule and whatever other methods answer, the scorer accepts the claims on a release, and a method whose workers answer as a baseline gets exactly that baseline's counts |
| WorkspaceWorld.ApplyInterventions | src/witnessgap/worlds/workspace.py:495-510 | the step-by-step update gives the specified state, whichever interventions are chosen |
| WorkspaceWorld.RecordingState.Read | src/witnessgap/worlds/workspace.py:70-84 | returns the named pointer and logs one numbered read, or refuses and logs nothing |
| WorkspaceWorld.Runner.Run | src/witnessgap/worlds/workspace.py:97-146 | a runner works once, refuses unknown interventions and otherwise returns the specified artifact |
| WorkspaceWorld.ValidateArtifact | src/witnessgap/worlds/workspace.py:296-362 | the step-by-step validator computes the specified verdict |
| WorkspaceWorld.ValidatorMatchesRunner | src/witnessgap/worlds/workspace.py:296-362 | the validator, written independently of the runner, accepts exactly the artifacts that the runner can produce, with their outcome |
| WorkspaceWorld.WorkspaceCauses | src/witnessgap/worlds/workspace.py:476-510 | one completion is repaired by refreshing and only by that, the other by repairing and only by that |
| WorkspaceWorld.WorkspacePanel | src/witnessgap/worlds/workspace.py:364-370 | the panel of either completion has one atom as its only repair and that atom's target as its family |
| Exchange.AppendBounded | src/witnessgap/workspace100/worker.py:885-888 | appending a chunk to a clipped buffer clips the longer stream, and reports overflow iff something fell off |
| Exchange.TakeChunk | src/witnessgap/workspace100/worker.py:867-888 | one read of a stream appends at most its chunk, keeps the buffer clipped and reports overflow iff the stream passed its limit |
| Exchange.ExchangeState.WriteWorkerRequest | src/witnessgap/workspace100/worker.py:842-864 | a partial write advances the offset and the bytes received together; a broken pipe or the end of the request closes the stream |
| Exchange.ExchangeState.ReadStdout | src/witnessgap/workspace100/worker.py:867-882 | a read extends the clipped buffer by the chunk and keeps the overflow flag exact; end of stream closes it |
| Exchange.ExchangeState.ReadStderr | src/witnessgap/workspace100/worker.py:867-882 | the same for the standard error |
| Exchange.ExchangeState.HandleEvent | src/witnessgap/workspace100/worker.py:809-839 | an event on any stream keeps the buffers, the flag and the delivered bytes exact |
| Exchange.ExchangeState.ExchangeWithProcess | src/witnessgap/workspace100/worker.py:709-783 | for every script of the environment the loop ends as the counter machine does, with exactly the clipped streams, and keeps: each buffer is the first `limit` bytes read, the flag is set iff a limit was exceeded, the child received `request[:offset]` |
| Exchange.PlaysAreSound | src/witnessgap/workspace100/worker.py:738-806 | under any interleaving every reachable state is sound and no step back; OUTPUT_LIMIT_EXCEEDED is returned iff a stream overflowed, TIMED_OUT only if the deadline passed, EXITED only with all streams closed |
| Exchange.PlayContinues | src/witnessgap/workspace100/worker.py:738-783 | runs compose: a run that still goes continues as the longer script, an ended one ignores it |
| Exchange.RecordsAreFaithful | src/witnessgap/workspace100/worker.py:786-806 | no returned exit violates the protocol-wide bounds, EXITED means both buffers are the complete streams, OUTPUT_LIMIT_EXCEEDED that the child wrote too much |
| Exchange.ExitsAgree | src/witnessgap/workspace100/worker.py:738-806 | the bytes of an exited child do not depend on the schedule |
| WorkerRun.ClaimsAreCanonical | src/witnessgap/workspace100/worker.py:647-682 | a claim is recorded iff the exit was zero and the entire output, within all limits, is the canonical encoding of that valid claim |
| WorkerRun.OutcomesAreExplained | src/witnessgap/workspace100/worker.py:647-806 | every ended run is a claim from an untruncated canonical encoding, or has the one failure kind that its ending calls for under the coded precedence |
| WorkerRun.HonestClaimsAreRecorded | src/witnessgap/workspace100/worker.py:582-682 | a child that writes one valid claim within the limits and exits cleanly has that claim recorded |
| WorkerRun.RunWorkerOnce | src/witnessgap/workspace100/worker.py:582-635 | a request outside its byte bounds is refused; any other gives one exchange and one outcome, explained by the child's complete streams, or the harness error |
| Claims.OrderCoversProduct | src/witnessgap/workspace100/claims.py:676-710 | a valid order executes every method and case exactly once and nothing else |
| Claims.OrdersPermute | src/witnessgap/workspace100/claims.py:676-710 | any two valid orders are permutations of each other |
| Claims.BindRuns | src/witnessgap/workspace100/claims.py:428-438 | the loop succeeds iff every record binds to a method, and returns the bound runs in order |
| ClaimAssembly.ValidateRuns | src/witnessgap/workspace100/claims.py:858-895 | the constructor's checks on the runs hold iff the list is one that the declarative predicate accepts |
| ClaimAssembly.BuildClaimSet | src/witnessgap/workspace100/claims.py:383-467 | assembly succeeds exactly on records that pass every check (counts, keys, methods, the constructor's run checks, the public cases) and returns the sorted claim set |
| ClaimAssembly.AcceptedIffComplete | src/witnessgap/workspace100/claims.py:383-667 | all those counts, sets and orders accept exactly one verified record for every method and case, in any order, provided that no two cases share a request |
| ClaimAssembly.AcceptanceIgnoresOrder | src/witnessgap/workspace100/claims.py:383-467 | acceptance and the claim set are the same for every permutation of the records |
| Claims.AssemblyIgnoresOrder | src/witnessgap/workspace100/claims.py:383-467 | assembly gives the identical claim set for every permutation of the records |
| ClaimAssembly.Evaluate | src/witnessgap/workspace100/claims.py:502-585 | an invalid setup, order or pool runs nothing; a valid one runs exactly the order, each key once, until a backend (which may remember all earlier runs) raises, changes identity or returns a record of something else; then assembly refuses only if two cases share a request, and success yields the claim set of the answers given |
| Claims.RunOrdered | src/witnessgap/workspace100/claims.py:546-577 | the run loop succeeds iff every backend keeps faith in the state it is then in, and returns one record for each key in order |
| Claims.ScheduleIsIrrelevant | src/witnessgap/workspace100/claims.py:502-585 | any two valid orders give the identical claim set if answers depend only on the key |
| ClaimRuns.GridSorted | src/witnessgap/workspace100/claims.py:858-895 | the grid of methods by evidence is in the canonical result order |
| ClaimRuns.RunsAreTheGrid | src/witnessgap/workspace100/claims.py:858-947 | accepted runs are exactly methods by one common evidence set of the required size, by method rank and then digest |
| ClaimRuns.RequestsAreAMap | src/witnessgap/workspace100/claims.py:926-947 | the runs of an accepted list follow one injective map from the covered evidence to requests |
| ClaimRuns.AcceptedRunsAreUnique | src/witnessgap/workspace100/claims.py:858-947 | two accepted run lists with equal records per key are equal sequences |
| ClaimRuns.MatrixHoldsAnswers | src/witnessgap/workspace100/claims.py:502-585 | the evaluated matrix has one run per method and case, holding that key's own answer, request and identities, and nothing else |
| ClaimRuns.SchedulesAgreeExactly | src/witnessgap/workspace100/claims.py:502-585 | for backends that may remember what they ran: two evaluations give the identical claim set iff every key was answered alike in both |
| ClaimRuns.EvaluatedSetsAreValid | src/witnessgap/workspace100/claims.py:858-947 | an evaluated claim set passes the validators whatever the schedule and whatever the workers answer |
| ClaimContext.BuildTables | src/witnessgap/workspace100/claims.py:898-925 | the loop fills the counters and maps with exactly what the runs contain, and refuses iff some run is misidentified |
| ClaimContext.EvidenceDecides | src/witnessgap/workspace100/claims.py:926-938 | the count and set tests on the tables hold iff every method covers the same cases |
| ClaimContext.RequestsDecide | src/witnessgap/workspace100/claims.py:926-947 | the request tests on the tables hold iff evidence and requests correspond one to one |
| ClaimContext.ValidateContext | src/witnessgap/workspace100/claims.py:898-947 | the imperative validator accepts exactly what the declarative context predicate accepts |
| Ratios.FromFractionIsCanonical | src/witnessgap/workspace100/scoring.py:164-203 | `from_fraction` meets its own constructor checks, keeps the value, and is not applicable iff the denominator is zero |
| Ratios.CanonicalForm | src/witnessgap/workspace100/scoring.py:186-203 | two fractions give one record iff they are the same rational or both have an empty denominator |
| Ratios.MacroIsMean | src/witnessgap/workspace100/scoring.py:1018-1067 | the macro rate is the true mean of the defined rates, reduced and at most one, so its constructor cannot refuse it |
| Ratios.MacroIgnoresOrder | src/witnessgap/workspace100/scoring.py:1032-1067 | the macro rate is the same for every order of the rates |
| Scores.FromCategories | src/witnessgap/workspace100/scoring.py:483-517 | the counting loop gives each category its number of occurrences |
| Scores.CountsPartition | src/witnessgap/workspace100/scoring.py:520-521 | the nine counts partition the cases |
| Scores.MetricsExist | src/witnessgap/workspace100/scoring.py:686-728 | no count table is refused its metrics: all seven rates are canonical and at most one |
| Scores.IncidenceIsCoverageTimesRisk | src/witnessgap/workspace100/scoring.py:686-728 | incidence is coverage times risk, exactly, whenever any claim is decisive |
| Slices.SliceTally | src/witnessgap/workspace100/scoring.py:2134-2176 | each component of a slice counts exactly the observations that match its dimension |
| Slices.SlicesAreAdditive | src/witnessgap/workspace100/scoring.py:2239-2280 | view, template and view-by-template tables add up componentwise for any observations |
| Slices.SlicesAreConsistent | src/witnessgap/workspace100/scoring.py:931-954 | in every slice failures equal failed categories and the counts partition the selected cases |
| Classifier.CategoriesMean | src/witnessgap/workspace100/scoring.py:1889-1932 | a run's category says exactly whether the truth is ambiguous, and whether the run failed, commits, names the true family or states the whole truth |
| Metrics.CountsMeasure | src/witnessgap/workspace100/scoring.py:483-561 | for any list of runs, every derived count of their categories is the number of runs that its name describes |
| Metrics.MetricsMeasure | src/witnessgap/workspace100/scoring.py:686-728 | each of the seven metrics exists and is the exact canonical share of runs that its name announces, stated without categories |
| Macros.BuiltTemplateSlices | src/witnessgap/workspace100/scoring.py:2283-2302 | in any built slice collection the selection for a macro finds one slice for every template, in order |
| Macros.MacrosAreMeans | src/witnessgap/workspace100/scoring.py:1133-1190 | for any scored runs, any metric and all views or one: the template macro exists and is the exact mean of the shares of runs, template by template, over the templates in which the metric counts anything |
| Macros.MethodMacros | src/witnessgap/workspace100/scoring.py:2305-2317 | evaluate, join, score and average: under every schedule a method's template macros are the means of what its workers' answers deserve |
| Baselines.ScoresFollowPanels | src/witnessgap/workspace100/scoring.py:1911-1932 | on a truthful case full marks go to exactly the claims that name the family and repairs of the completion shown, or abstain under a neutral view |
| Baselines.PairScores | src/witnessgap/workspace100/baselines.py:899-914 | per pair, `refresh_outcome` has 2 correct abstentions, 2 missed and 2 exact, `forced_environment` 2 decisive on ambiguous, 2 wrong targets and 2 exact, and so for all four baselines |
| Baselines.BaselinesScaleLinearly | src/witnessgap/workspace100/scoring.py:1889-1932 | over the truth of N pairs every count is N times that of one pair |
| Baselines.FalseCertaintyOfBaselines | src/witnessgap/workspace100/scoring.py:552-557 | abstaining baselines are never falsely certain; `forced_environment` is on 4 of every 6 cases |
| ClaimScoring.ScoreClaims | src/witnessgap/workspace100/scoring.py:1765-1808 | the join and scoring loop succeeds iff claims and truth cover the same cases with matching requests and registries, and returns one scored run for each method and case, methods first, each naming its run and its case |
| ClaimScoring.EvaluatedIsScorable | src/witnessgap/workspace100/scoring.py:1735-1808 | the claim set of an evaluation is accepted by the scorer of its own truth, whatever the schedule and whatever the workers answer |
| ClaimScoring.ScoredAsAnswered | src/witnessgap/workspace100/scoring.py:1735-1808 | evaluate, join and score: the categories of a method, in truth order, are what its workers' answers deserve |
| ClaimScoring.BaselineIsScored | src/witnessgap/workspace100/scoring.py:1735-1808 | from workers to report: a method that answers as a baseline scores exactly that baseline's counts over N pairs |

## Left out

- Hashing, hexadecimal text and JSON text: digests and commitments are their preimages, or functions with injectivity as a hypothesis; encoders and parsers are parameters.
- Opaque identifiers (`wge_`, `wgp_` and the like) are not assumed to be injective; corpus-wide uniqueness is a checked condition, as in the source.
- The panels that are compared, matched and rooted keep the subset, the public trace and the outcome of each receipt; the two enumerators also return complete results. State roots, read-log roots, intervention-log roots and the contract digests of panels are not part of this model.
- Identifier and display syntax (only the length bounds of identifiers are modelled), exact-type checks, closed field sets, byte-size limits of encodings and the payload round trips of the records.
- Trust anchors beyond the equality with the registry, adapter identities and implementation digests.
- Processes, signals, clocks and temporary directories: the environment of the exchange loop is an arbitrary script of time left, readiness, read and write answers, exit and reaping. The timing of killing and reaping is not modelled.
- The fixed sizes of the shipped catalogue (50 variants, 100 completions, 300 cases, 1,200 runs): the results hold for any number, and counts per template or split are stated relative to the routes of that template or split.
- The text search inside the scan for private values: which text shows which marker is a parameter; the loop and its place in the pipeline are modelled.
- Roots over corpora, views, truth sets, claim sets and score reports, the pinned roots that precede the join of claims with truth, and the reports assembled around slices and macros (the oracle report).
- Loading stored truth sets, claim sets and score reports.
- The parsing of a request by the built-in baselines: the model starts at the observation that `predict` receives.
- Exchange.ExchangeState.ExchangeWithProcess: the request is not empty (WorkerRun.RunWorkerOnce refuses the empty one before the exchange); the deadline is the sign of the time left at each turn.
- Pipeline.BuildRelease: takes the uniqueness of identities across the corpus, and templates whose names fit and do not clash, as checked by the caller; the failure order among several violated checks is not modelled.
