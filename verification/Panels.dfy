/** Repair panels: one specification and the three implementations of it, in
    src/witnessgap/oracle.py, src/witnessgap/verifier.py and
    src/witnessgap/workspace100/views.py. */
module Panels {
  import opened Model
  import opened Order
  import opened Subsets
  import opened Masks
  import opened Repairs

  const MAX_ATOMS := 12

  datatype Replay = Replay(trace: Bytes, outcome: Outcome)

  datatype Receipt = Receipt(interventions: Witness, trace: Bytes, outcome: Outcome)

  datatype Panel = Panel(
    atomNames: seq<string>,
    receipts: seq<Receipt>,
    minimalWitnesses: seq<Witness>,
    targetFamily: TargetFamily)
  {
    /** `receipt_for`; `None` stands for both of its errors, an unsorted tuple
        (which valid panels never record, `ReceiptsAreSorted`) and a missing one. */
    function ReceiptFor(interventions: Witness): Option<Receipt> {
      FirstReceipt(receipts, interventions)
    }
  }

  function FirstReceipt(receipts: seq<Receipt>, interventions: Witness): (r: Option<Receipt>)
    ensures r.Some? ==> r.value in receipts && r.value.interventions == interventions
    ensures r.None? ==> forall k :: k in receipts ==> k.interventions != interventions
  {
    if receipts == [] then None
    else if receipts[0].interventions == interventions then Some(receipts[0])
    else FirstReceipt(receipts[1..], interventions)
  }

  // ---------- the specification ----------

  type World = set<string> -> Replay

  ghost function Succeeds(world: World): set<string> -> bool {
    s => world(s).outcome == Success
  }

  ghost function ReceiptOf(world: World): Witness -> Receipt {
    w => Receipt(w, world(Elements(w)).trace, world(Elements(w)).outcome)
  }

  ghost function IsMinimalTuple(ok: set<string> -> bool): Witness -> bool {
    w => MinimalSuccess(ok, Elements(w))
  }

  ghost function TupleSucceeds(ok: set<string> -> bool): Witness -> bool {
    w => ok(Elements(w))
  }

  /** `tuple(sorted(tuple(sorted(targets)) for targets in family))` */
  function FamilyTuple(family: set<set<string>>): TargetFamily {
    StringsAreOrdered();
    TuplesAreOrdered();
    SortedSet(TupleLe, set s | s in family :: SortedSet(StringLe, s))
  }

  /** What a panel must contain, stated without any enumeration trick: a receipt
      for every subset, the minimal repairs among them, and the minimal target
      sets of all successes. */
  ghost function PanelOf(atoms: seq<Atom>, world: World): Panel {
    var names := AtomNames(atoms);
    var ok := Succeeds(world);
    Panel(
      names,
      Apply(AllSubsets(names), ReceiptOf(world)),
      Filter(AllSubsets(names), IsMinimalTuple(ok)),
      FamilyTuple(TargetSets(AtomTargets(atoms), ok)))
  }

  lemma TargetsCoverNames(atoms: seq<Atom>)
    ensures AtomTargets(atoms).Keys == Elements(AtomNames(atoms))
  {
    forall x ensures x in AtomTargets(atoms).Keys <==> x in Elements(AtomNames(atoms)) {
      if i :| 0 <= i < |atoms| && atoms[i].name == x {
        assert AtomNames(atoms)[i] == x;
      }
    }
  }

  // ---------- projecting minimal witnesses to targets ----------

  predicate Declared(targets: map<string, string>, witnesses: seq<Witness>) {
    forall w :: w in witnesses ==> Elements(w) <= targets.Keys
  }

  /** The target projection shared by all three implementations: two set
      comprehensions and a sort (oracle.py:104-110, verifier.py:549-553,
      views.py:1501-1506). */
  function TargetFamilyOf(targets: map<string, string>, witnesses: seq<Witness>): TargetFamily
    requires Declared(targets, witnesses)
  {
    var projected := set w | w in witnesses :: Project(targets, Elements(w));
    FamilyTuple(MinimalSets(projected))
  }

  /** The minimal witnesses determine the family of every success. */
  lemma MinimalWitnessesProject(atoms: seq<Atom>, ok: set<string> -> bool)
    requires StrictlySorted(StringLe, AtomNames(atoms))
    ensures var witnesses := Filter(AllSubsets(AtomNames(atoms)), IsMinimalTuple(ok));
            var targets := AtomTargets(atoms);
            && Declared(targets, witnesses)
            && TargetFamilyOf(targets, witnesses) == FamilyTuple(TargetSets(targets, ok))
  {
    var names := AtomNames(atoms);
    var targets := AtomTargets(atoms);
    var witnesses := Filter(AllSubsets(names), IsMinimalTuple(ok));
    TargetsCoverNames(atoms);
    AllSubsetsCanonical(names);
    var projected := set w | w in witnesses :: Project(targets, Elements(w));
    var minima := Projections(targets, Minima(ok, targets.Keys));
    forall p ensures p in projected <==> p in minima {
      if p in projected {
        var w :| w in witnesses && Project(targets, Elements(w)) == p;
        assert Elements(w) in Minima(ok, targets.Keys);
      }
      if p in minima {
        var s :| s in Minima(ok, targets.Keys) && Project(targets, s) == p;
        SubsetsAreTuples(names, s);
        assert SortedSet(StringLe, s) in witnesses;
      }
    }
    assert projected == minima;
    TwoStageMinimisation(targets, ok);
  }

  // ---------- pairwise minimality: frozensets, masks, tuples ----------

  /** oracle.py:99-103 */
  function MinimalBySets(successful: seq<set<string>>): seq<Witness> {
    StringsAreOrdered();
    Apply(
      Filter(successful, c => !(exists other :: other in successful && other < c)),
      (c: set<string>) => SortedSet(StringLe, c))
  }

  /** verifier.py:541-547 */
  function MinimalByMasks(masks: seq<nat>, successful: set<nat>, names: seq<string>): seq<Witness> {
    Apply(Filter(masks, MaskKept(successful)), Decoder(names))
  }

  function MaskKept(successful: set<nat>): nat -> bool {
    mask =>
      && mask in successful
      && !(exists other :: other in successful && other != mask && BitAnd(other, mask) == other)
  }

  /** views.py:1484-1494 */
  function MinimalByTuples(receipts: seq<Receipt>): seq<Witness> {
    var successful := Apply(Filter(receipts, (r: Receipt) => r.outcome == Success), (r: Receipt) => r.interventions);
    Filter(successful, TupleKept(successful))
  }

  function TupleKept(successful: seq<Witness>): Witness -> bool {
    w => !(exists other :: other in successful && other != w && Elements(other) <= Elements(w))
  }

  lemma {:induction false} FilterTwice<T(!new)>(s: seq<T>, p: T -> bool, q: T -> bool, both: T -> bool)
    requires forall x :: x in s ==> (both(x) <==> p(x) && q(x))
    ensures Filter(Filter(s, p), q) == Filter(s, both)
  {
    if s != [] {
      FilterTwice(s[1..], p, q, both);
    }
  }

  /** A listed success is minimal among the listed successes iff every strict
      subset of it fails outright. */
  lemma ListedMinimality(names: seq<string>, ok: set<string> -> bool, w: Witness)
    requires StrictlySorted(StringLe, names) && w in AllSubsets(names)
    ensures var successful := Filter(AllSubsets(names), TupleSucceeds(ok));
            MinimalSuccess(ok, Elements(w))
            <==> ok(Elements(w)) && !(exists o :: o in successful && Elements(o) < Elements(w))
  {
    var successful := Filter(AllSubsets(names), TupleSucceeds(ok));
    AllSubsetsCanonical(names);
    if ok(Elements(w)) && !MinimalSuccess(ok, Elements(w)) {
      var t :| t < Elements(w) && ok(t);
      SubsetsAreTuples(names, t);
      assert SortedSet(StringLe, t) in successful;
    }
  }

  lemma SubsetTuplesAreSets(names: seq<string>, a: Witness, b: Witness)
    requires StrictlySorted(StringLe, names) && a in AllSubsets(names) && b in AllSubsets(names)
    ensures a == b <==> Elements(a) == Elements(b)
  {
    AllSubsetsCanonical(names);
    StringsAreOrdered();
    if Elements(a) == Elements(b) {
      StrictlySortedUnique(StringLe, a, b);
    }
  }

  lemma MinimalBySetsAgrees(names: seq<string>, ok: set<string> -> bool)
    requires StrictlySorted(StringLe, names)
    ensures MinimalBySets(Apply(Filter(AllSubsets(names), TupleSucceeds(ok)), Elements))
            == Filter(AllSubsets(names), IsMinimalTuple(ok))
  {
    var tuples := Filter(AllSubsets(names), TupleSucceeds(ok));
    var sets := Apply(tuples, Elements);
    var minimal := Filter(AllSubsets(names), IsMinimalTuple(ok));
    StringsAreOrdered();
    AllSubsetsCanonical(names);
    forall w | w in tuples
      ensures (exists o :: o in sets && o < Elements(w)) <==> (exists o :: o in tuples && Elements(o) < Elements(w))
    {
      if o :| o in tuples && Elements(o) < Elements(w) {
        var i :| 0 <= i < |tuples| && tuples[i] == o;
        assert sets[i] in sets;
      }
    }
    forall w | w in tuples
      ensures IsMinimalTuple(ok)(w) <==> !(exists o :: o in sets && o < Elements(w))
    {
      ListedMinimality(names, ok, w);
    }
    var kept: set<string> -> bool := c => !(exists other :: other in sets && other < c);
    ApplyFilter(tuples, Elements, IsMinimalTuple(ok), kept);
    FilterTwice(AllSubsets(names), TupleSucceeds(ok), IsMinimalTuple(ok), IsMinimalTuple(ok));
    assert Filter(sets, kept) == Apply(minimal, Elements);
    forall i | 0 <= i < |minimal| ensures SortedSet(StringLe, Elements(minimal[i])) == minimal[i] {
      assert minimal[i] in minimal;
      SortedSetUnique(StringLe, Elements(minimal[i]), minimal[i]);
    }
  }

  lemma MinimalByMasksAgrees(names: seq<string>, ok: set<string> -> bool, successful: set<nat>)
    requires StrictlySorted(StringLe, names)
    requires forall m: nat :: m in successful <==> m in SortedMasks(names) && ok(Elements(WitnessForMask(m, names)))
    ensures MinimalByMasks(SortedMasks(names), successful, names)
            == Filter(AllSubsets(names), IsMinimalTuple(ok))
  {
    var masks := SortedMasks(names);
    SortedMasksAreMasks(names);
    SortedMasksDecode(names);
    forall m | m in masks
      ensures MaskKept(successful)(m) <==> IsMinimalTuple(ok)(Decoder(names)(m))
    {
      MaskMinimality(names, ok, successful, m);
    }
    ApplyFilter(masks, Decoder(names), MaskKept(successful), IsMinimalTuple(ok));
  }

  lemma MaskMinimality(names: seq<string>, ok: set<string> -> bool, successful: set<nat>, m: nat)
    requires StrictlySorted(StringLe, names) && m < Pow2(|names|)
    requires forall k: nat :: k in successful <==> k < Pow2(|names|) && ok(Elements(WitnessForMask(k, names)))
    ensures MaskKept(successful)(m) <==> MinimalSuccess(ok, Elements(WitnessForMask(m, names)))
  {
    var s := Elements(WitnessForMask(m, names));
    MaskIsTuple(m, names);
    if ok(s) && !MinimalSuccess(ok, s) {
      var t :| t < s && ok(t);
      SubsetsAreTuples(names, t);
      AllSubsetsCanonical(names);
      var other := MaskOnto(SortedSet(StringLe, t), names);
      AndIsInclusion(other, m, names);
      assert other in successful && other != m && BitAnd(other, m) == other;
    }
    if other :| other in successful && other != m && BitAnd(other, m) == other {
      AndIsInclusion(other, m, names);
      var t := Elements(WitnessForMask(other, names));
      if t == s {
        MaskInjective(other, m, names);
      }
      assert t < s && ok(t);
    }
  }

  lemma MinimalByTuplesAgrees(names: seq<string>, world: World)
    requires StrictlySorted(StringLe, names)
    ensures MinimalByTuples(Apply(AllSubsets(names), ReceiptOf(world)))
            == Filter(AllSubsets(names), IsMinimalTuple(Succeeds(world)))
  {
    var ok := Succeeds(world);
    var subsets := AllSubsets(names);
    var receipts := Apply(subsets, ReceiptOf(world));
    var tuples := Filter(subsets, TupleSucceeds(ok));
    var succeeded := (r: Receipt) => r.outcome == Success;
    var interventions := (r: Receipt) => r.interventions;
    assert forall w :: ReceiptOf(world)(w).outcome == Success <==> TupleSucceeds(ok)(w);
    ApplyFilter(subsets, ReceiptOf(world), TupleSucceeds(ok), succeeded);
    assert Filter(receipts, succeeded) == Apply(tuples, ReceiptOf(world));
    var successful := Apply(Filter(receipts, succeeded), interventions);
    assert successful == tuples;
    forall w | w in tuples ensures TupleKept(tuples)(w) <==> IsMinimalTuple(ok)(w) {
      ListedMinimality(names, ok, w);
      forall o | o in tuples
        ensures o != w && Elements(o) <= Elements(w) <==> Elements(o) < Elements(w)
      {
        SubsetTuplesAreSets(names, o, w);
      }
    }
    FilterAgree(tuples, TupleKept(tuples), IsMinimalTuple(ok));
    FilterTwice(subsets, TupleSucceeds(ok), IsMinimalTuple(ok), IsMinimalTuple(ok));
  }

  /** One world, three enumerations: masks decode to the same order of subsets,
      and frozensets, bitmasks and tuples keep the same minimal witnesses, whose
      projection is the family of all successes. */
  lemma ThreeEnumerationsAgree(atoms: seq<Atom>, world: World, successful: set<nat>)
    requires StrictlySorted(StringLe, AtomNames(atoms))
    requires forall m: nat ::
      m in successful
      <==> m in SortedMasks(AtomNames(atoms)) && Succeeds(world)(Elements(WitnessForMask(m, AtomNames(atoms))))
    ensures var names, ok := AtomNames(atoms), Succeeds(world);
      var bySets := MinimalBySets(Apply(Filter(AllSubsets(names), TupleSucceeds(ok)), Elements));
      && Apply(SortedMasks(names), Decoder(names)) == AllSubsets(names)
      && bySets == MinimalByMasks(SortedMasks(names), successful, names)
      && bySets == MinimalByTuples(Apply(AllSubsets(names), ReceiptOf(world)))
      && Declared(AtomTargets(atoms), bySets)
      && TargetFamilyOf(AtomTargets(atoms), bySets) == FamilyTuple(TargetSets(AtomTargets(atoms), ok))
  {
    var names, ok := AtomNames(atoms), Succeeds(world);
    SortedMasksDecode(names);
    MinimalBySetsAgrees(names, ok);
    MinimalByMasksAgrees(names, ok, successful);
    MinimalByTuplesAgrees(names, world);
    MinimalWitnessesProject(atoms, ok);
  }

  // ---------- the independent panel validator (views.py:1413-1440) ----------

  function Interventions(receipts: seq<Receipt>): seq<Witness> {
    Apply(receipts, (r: Receipt) => r.interventions)
  }

  predicate ValidPanel(panel: Panel, atoms: seq<Atom>) {
    var names := AtomNames(atoms);
    && panel.atomNames == names
    && Interventions(panel.receipts) == AllSubsets(names)
    && panel.receipts != [] && panel.receipts[0].outcome == Failure
    && panel.minimalWitnesses == MinimalByTuples(panel.receipts)
    && Declared(AtomTargets(atoms), panel.minimalWitnesses)
    && panel.targetFamily == TargetFamilyOf(AtomTargets(atoms), panel.minimalWitnesses)
  }

  /** A valid panel has receipts for exactly the sorted tuples over its atoms. */
  lemma ReceiptsAreSorted(panel: Panel, atoms: seq<Atom>, w: Witness)
    requires StrictlySorted(StringLe, AtomNames(atoms)) && ValidPanel(panel, atoms)
    ensures panel.ReceiptFor(w).Some? <==> IsSubsetTuple(AtomNames(atoms), w)
  {
    var listed := Interventions(panel.receipts);
    AllSubsetsCanonical(AtomNames(atoms));
    if panel.ReceiptFor(w).Some? {
      var i :| 0 <= i < |panel.receipts| && panel.receipts[i] == panel.ReceiptFor(w).value;
      assert listed[i] == w;
    }
    if w in listed {
      var i :| 0 <= i < |listed| && listed[i] == w;
      assert panel.receipts[i].interventions == w;
    }
  }

  /** The replay behaviour that a complete list of receipts records. */
  ghost function Recorded(receipts: seq<Receipt>): World {
    s => if exists r :: r in receipts && Elements(r.interventions) == s
         then var r :| r in receipts && Elements(r.interventions) == s; Replay(r.trace, r.outcome)
         else Replay([], Failure)
  }

  lemma RecordedReceipts(names: seq<string>, receipts: seq<Receipt>)
    requires StrictlySorted(StringLe, names) && Interventions(receipts) == AllSubsets(names)
    ensures Apply(AllSubsets(names), ReceiptOf(Recorded(receipts))) == receipts
  {
    var rebuilt := Apply(AllSubsets(names), ReceiptOf(Recorded(receipts)));
    AllSubsetsCanonical(names);
    forall i | 0 <= i < |receipts| ensures rebuilt[i] == receipts[i] {
      var w := Interventions(receipts)[i];
      assert w == receipts[i].interventions && receipts[i] in receipts;
      var r :| r in receipts && Elements(r.interventions) == Elements(w)
        && Recorded(receipts)(Elements(w)) == Replay(r.trace, r.outcome);
      var j :| 0 <= j < |receipts| && receipts[j] == r;
      assert Interventions(receipts)[j] == r.interventions;
      assert r.interventions in AllSubsets(names) && w in AllSubsets(names);
      SubsetTuplesAreSets(names, r.interventions, w);
      assert AllSubsets(names)[i] == AllSubsets(names)[j];
      assert i == j;
    }
  }

  /** A panel passes validation exactly when it is the panel of some world whose
      unmodified episode fails. */
  lemma ValidPanelsAreExact(panel: Panel, atoms: seq<Atom>)
    requires StrictlySorted(StringLe, AtomNames(atoms))
    ensures ValidPanel(panel, atoms)
            <==> exists world: World :: world({}).outcome == Failure && panel == PanelOf(atoms, world)
  {
    var names := AtomNames(atoms);
    AllSubsetsLeads(names);
    if ValidPanel(panel, atoms) {
      var world := Recorded(panel.receipts);
      RecordedReceipts(names, panel.receipts);
      MinimalByTuplesAgrees(names, world);
      MinimalWitnessesProject(atoms, Succeeds(world));
      assert panel.receipts[0] == ReceiptOf(world)([]);
      assert Elements<string>([]) == {};
      assert world({}).outcome == Failure && panel == PanelOf(atoms, world);
    }
    if world: World :| world({}).outcome == Failure && panel == PanelOf(atoms, world) {
      MinimalByTuplesAgrees(names, world);
      MinimalWitnessesProject(atoms, Succeeds(world));
      assert panel.receipts[0] == ReceiptOf(world)([]);
      assert Elements<string>([]) == {};
      assert Interventions(panel.receipts) == AllSubsets(names);
    }
  }
}
