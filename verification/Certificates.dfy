/** Attribution certificates: how one is derived from verified panels and the
    closed validators it must pass (src/witnessgap/verifier.py:353-422, 966-1095). */
module Certificates {
  import opened Model
  import opened Order
  import opened Panels
  import opened Repairs
  import opened Attribution

  datatype VerifiedPanel = VerifiedPanel(commitment: string, panel: Panel)

  datatype PanelEntry = PanelEntry(compatible: bool, commitment: string, panel: Panel)

  datatype Certificate = Certificate(
    registry: Manifest,
    evidence: Evidence,
    panelRoot: seq<PanelEntry>,
    diagnosis: Diagnosis,
    compatible: seq<string>,
    ambiguity: Option<(string, string)>)

  function PanelProfile(p: VerifiedPanel): TargetFamily {
    p.panel.targetFamily
  }

  function PanelCommitment(p: VerifiedPanel): string {
    p.commitment
  }

  ghost predicate InRange(indexes: seq<nat>, n: nat) {
    forall k :: 0 <= k < |indexes| ==> indexes[k] < n
  }

  function Select(panels: seq<VerifiedPanel>, indexes: seq<nat>): (r: seq<VerifiedPanel>)
    requires InRange(indexes, |panels|)
    ensures |r| == |indexes| && forall k :: 0 <= k < |indexes| ==> r[k] == panels[indexes[k]]
  {
    seq(|indexes|, k requires 0 <= k < |indexes| => panels[indexes[k]])
  }

  function PanelRoot(panels: seq<VerifiedPanel>, indexes: seq<nat>): seq<PanelEntry> {
    seq(|panels|, i requires 0 <= i < |panels| => PanelEntry(i in indexes, panels[i].commitment, panels[i].panel))
  }

  /** The verdict part of `_derive_verified_attribution`. */
  function Conclude(compatible: seq<VerifiedPanel>): (Diagnosis, Option<(string, string)>)
    requires compatible != []
  {
    var profile := PanelProfile(compatible[0]);
    if |Elements(Apply(compatible, PanelProfile))| > 1 then
      OtherExists(compatible, PanelProfile);
      var right := FirstOther(compatible[1..], PanelProfile, profile).value;
      (AMBIGUOUS, Some((compatible[0].commitment, right.commitment)))
    else if profile == [] then
      (Diagnosis(NotIdentifiable, None, Some(NoRepairInDeclaredAlgebra)), None)
    else
      var kind :=
        if |profile| > 1 then AlternativeMinimalRepairs
        else if |profile[0]| > 1 then IdentifiedCompound
        else IdentifiedSingleton;
      (Diagnosis(kind, Some(profile), None), None)
  }

  /** `_derive_verified_attribution`; `None` stands for its refusal. */
  function Derive(panels: seq<VerifiedPanel>, indexes: seq<nat>, e: Evidence, manifest: Manifest)
    : Option<Certificate>
    requires InRange(indexes, |panels|)
  {
    if indexes == [] then None
    else
      var compatible := Select(panels, indexes);
      var (diagnosis, pair) := Conclude(compatible);
      Some(Certificate(
        manifest, e, PanelRoot(panels, indexes), diagnosis,
        Apply(compatible, PanelCommitment), pair))
  }

  /** The conclusion is the licensed verdict on the compatible profiles. */
  lemma ConcludeIsLicensed(compatible: seq<VerifiedPanel>)
    requires compatible != []
    ensures Licensed(Apply(compatible, PanelProfile), Conclude(compatible).0)
    ensures Conclude(compatible).0 == AMBIGUOUS <==> Conclude(compatible).1.Some?
  {
    ManyProfiles(Apply(compatible, PanelProfile));
  }

  // ---------- the validators ----------

  ghost predicate ValidTargets(family: TargetFamily) {
    && family != []
    && (forall t :: t in family ==> t != [] && CoreNames(t) && StrictlySorted(StringLe, t))
    && StrictlySorted(TupleLe, family)
  }

  ghost predicate ValidPair(pair: (string, string)) {
    StringLe(pair.0, pair.1) && pair.0 != pair.1
  }

  ghost predicate ValidAlternatives(family: TargetFamily) {
    && |family| >= 2
    && forall i, j :: 0 <= i < j < |family| ==>
         !(Elements(family[i]) < Elements(family[j])) && !(Elements(family[j]) < Elements(family[i]))
  }

  ghost predicate ValidShape(c: Certificate) {
    var d := c.diagnosis;
    match d.kind
    case NotIdentifiable =>
      && d.targetFamily.None? && d.unknownReason.Some?
      && (d.unknownReason == Some(AmbiguousWorlds) <==> c.ambiguity.Some?)
      && (c.ambiguity.Some? ==>
            |c.compatible| >= 2 && c.ambiguity.value.0 in c.compatible && c.ambiguity.value.1 in c.compatible)
    case EffectOnly => d.targetFamily.None? && d.unknownReason.None? && c.ambiguity.None?
    case IdentifiedSingleton =>
      && d.targetFamily.Some? && d.unknownReason.None? && c.ambiguity.None?
      && |d.targetFamily.value| == 1 && |d.targetFamily.value[0]| == 1
    case IdentifiedCompound =>
      && d.targetFamily.Some? && d.unknownReason.None? && c.ambiguity.None?
      && |d.targetFamily.value| == 1 && |d.targetFamily.value[0]| > 1
    case AlternativeMinimalRepairs =>
      && d.targetFamily.Some? && d.unknownReason.None? && c.ambiguity.None?
      && ValidAlternatives(d.targetFamily.value)
  }

  ghost predicate ValidCertificate(c: Certificate) {
    && c.compatible != [] && StrictlySorted(StringLe, c.compatible)
    && (c.diagnosis.targetFamily.Some? ==> ValidTargets(c.diagnosis.targetFamily.value))
    && (c.ambiguity.Some? ==> ValidPair(c.ambiguity.value))
    && ValidShape(c)
  }

  /** The validators leave no freedom in a definite certificate's kind. */
  lemma ShapeFixesKind(c: Certificate)
    requires ValidCertificate(c) && c.diagnosis.targetFamily.Some?
    ensures c.diagnosis == DefiniteFor(c.diagnosis.targetFamily.value)
  {
  }

  ghost predicate Increasing(indexes: seq<nat>) {
    forall i, j :: 0 <= i < j < |indexes| ==> indexes[i] < indexes[j]
  }

  lemma SelectedStaySorted(panels: seq<VerifiedPanel>, indexes: seq<nat>)
    requires InRange(indexes, |panels|) && Increasing(indexes)
    requires StrictlySorted(StringLe, Apply(panels, PanelCommitment))
    ensures StrictlySorted(StringLe, Apply(Select(panels, indexes), PanelCommitment))
  {
    var all := Apply(panels, PanelCommitment);
    var some := Apply(Select(panels, indexes), PanelCommitment);
    assert forall k :: 0 <= k < |some| ==> some[k] == all[indexes[k]];
  }

  lemma AmbiguityPairIsValid(compatible: seq<VerifiedPanel>)
    requires compatible != [] && StrictlySorted(StringLe, Apply(compatible, PanelCommitment))
    requires |Elements(Apply(compatible, PanelProfile))| > 1
    ensures var pair := Conclude(compatible).1.value;
      && ValidPair(pair) && |compatible| >= 2
      && pair.0 in Apply(compatible, PanelCommitment) && pair.1 in Apply(compatible, PanelCommitment)
  {
    OtherExists(compatible, PanelProfile);
    var commitments := Apply(compatible, PanelCommitment);
    var right := FirstOther(compatible[1..], PanelProfile, PanelProfile(compatible[0])).value;
    var i :| 0 <= i < |compatible[1..]| && compatible[1..][i] == right;
    assert commitments[0] == compatible[0].commitment && commitments[i + 1] == right.commitment;
  }

  lemma {:induction false} TargetsAreDeclared(atoms: seq<Atom>, x: string)
    requires x in AtomTargets(atoms)
    ensures AtomTargets(atoms)[x] in TargetNames(atoms)
  {
    var before, last := atoms[..|atoms| - 1], atoms[|atoms| - 1];
    if last.name == x {
      assert TargetNames(atoms)[|atoms| - 1] == last.target;
    } else {
      TargetsAreDeclared(before, x);
      var i :| 0 <= i < |before| && TargetNames(before)[i] == AtomTargets(before)[x];
      assert TargetNames(atoms)[i] == TargetNames(before)[i];
    }
  }

  lemma FamilyIsNamed(atoms: seq<Atom>, ok: set<string> -> bool, t: TargetSet)
    requires CoreNames(TargetNames(atoms)) && t in FamilyTuple(TargetSets(AtomTargets(atoms), ok))
    ensures CoreNames(t)
  {
    var targets := AtomTargets(atoms);
    var family := TargetSets(targets, ok);
    StringsAreOrdered();
    assert t in Elements(FamilyTuple(family));
    var s :| s in family && SortedSet(StringLe, s) == t;
    var chosen :| chosen in Successes(ok, targets.Keys) && Project(targets, chosen) == s;
    forall i | 0 <= i < |t| ensures CoreName(t[i]) {
      assert t[i] in Elements(t);
      var x :| x in chosen && targets[x] == t[i];
      TargetsAreDeclared(atoms, x);
      var k :| 0 <= k < |atoms| && TargetNames(atoms)[k] == t[i];
    }
  }

  /** Every certificate derived from genuine panels in commitment order passes
      every validator. */
  lemma DerivedCertificatesValidate(
      panels: seq<VerifiedPanel>, indexes: seq<nat>, e: Evidence, manifest: Manifest, world: World)
    requires StrictlySorted(StringLe, AtomNames(manifest.atoms)) && CoreNames(TargetNames(manifest.atoms))
    requires world({}).outcome == Failure
    requires StrictlySorted(StringLe, Apply(panels, PanelCommitment))
    requires InRange(indexes, |panels|) && Increasing(indexes) && indexes != []
    requires panels[indexes[0]].panel == PanelOf(manifest.atoms, world)
    ensures ValidCertificate(Derive(panels, indexes, e, manifest).value)
  {
    var compatible := Select(panels, indexes);
    SelectedStaySorted(panels, indexes);
    if |Elements(Apply(compatible, PanelProfile))| > 1 {
      AmbiguityPairIsValid(compatible);
    } else {
      var profile := PanelProfile(compatible[0]);
      FamilyTupleShape(AtomTargets(manifest.atoms), Succeeds(world));
      forall t | t in profile ensures CoreNames(t) {
        FamilyIsNamed(manifest.atoms, Succeeds(world), t);
      }
      assert profile != [] ==> profile[0] in profile;
      forall i, j | 0 <= i < j < |profile|
        ensures !(Elements(profile[i]) < Elements(profile[j])) && !(Elements(profile[j]) < Elements(profile[i]))
      {
        assert profile[i] in profile && profile[j] in profile;
      }
    }
  }
}
