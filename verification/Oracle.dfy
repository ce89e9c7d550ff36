/** The reference enumeration (src/witnessgap/oracle.py:57-122). */
module Oracle {
  import opened Model
  import opened Order
  import opened Subsets
  import opened Panels

  datatype ReplayResult = ReplayResult(trace: Bytes, outcome: Outcome, stateReads: seq<string>)

  /** `replay(s, 0)` and `replay(s, 1)` are the two replays of the subset `s`;
      `None` means that it raised. The later name and atoms are what the world
      reports after all replays. */
  datatype FiniteWorld = FiniteWorld(
    worldId: string,
    atoms: seq<Atom>,
    laterId: string,
    laterAtoms: seq<Atom>,
    replay: (set<string>, nat) -> Option<ReplayResult>)
  {
    predicate Steady() {
      laterId == worldId && laterAtoms == atoms
    }
  }

  datatype WorldError =
    | TooManyAtoms
    | DuplicateAtoms
    | UnsortedAtoms
    | ReplayRaised(interventions: Witness)
    | ReplayDiverged(interventions: Witness)
    | BaselineSucceeded
    | AtomsChanged
    | NameChanged

  /** `ReplayReceipt` */
  datatype ReplayReceipt = ReplayReceipt(interventions: Witness, result: ReplayResult)

  /** `RepairPanel`, with complete replay results. */
  datatype RepairPanel = RepairPanel(
    worldId: string, atomNames: seq<string>, receipts: seq<ReplayReceipt>,
    minimalWitnesses: seq<Witness>, targetFamily: TargetFamily)
  {
    /** What a panel shows besides state reads. */
    function Shown(): Panel {
      Panel(atomNames, Apply(receipts, ShownReceipt), minimalWitnesses, targetFamily)
    }
  }

  function ShownReceipt(r: ReplayReceipt): Receipt {
    Receipt(r.interventions, r.result.trace, r.result.outcome)
  }

  ghost function FullReceipt(world: FiniteWorld): Witness -> ReplayReceipt {
    w => match world.replay(Elements(w), 0)
         case Some(x) => ReplayReceipt(w, x)
         case None => ReplayReceipt(w, ReplayResult([], Failure, []))
  }

  ghost function FirstReplays(world: FiniteWorld): World {
    s => match world.replay(s, 0)
         case Some(x) => Replay(x.trace, x.outcome)
         case None => Replay([], Failure)
  }

  ghost predicate Repeats(world: FiniteWorld, w: Witness) {
    world.replay(Elements(w), 0).Some? && world.replay(Elements(w), 1) == world.replay(Elements(w), 0)
  }

  predicate Raises(world: FiniteWorld, w: Witness) {
    world.replay(Elements(w), 0).None? || world.replay(Elements(w), 1).None?
  }

  ghost predicate Admissible(atoms: seq<Atom>) {
    |atoms| <= MAX_ATOMS && StrictlySorted(StringLe, AtomNames(atoms))
  }

  lemma SortedTest(names: seq<string>)
    ensures |Elements(names)| == |names| <==> Distinct(names)
    ensures names == Sort(StringLe, names) <==> Sorted(StringLe, names)
  {
    DistinctCardinality(names);
    StringsAreOrdered();
    SortSorts(StringLe, names);
    if Sorted(StringLe, names) {
      SortFixesSorted(StringLe, names);
    }
  }

  /** The first subset whose two replays are not both there and equal. */
  ghost predicate FirstDivergence(world: FiniteWorld, w: Witness) {
    var subsets := AllSubsets(AtomNames(world.atoms));
    exists i :: 0 <= i < |subsets| && subsets[i] == w && !Repeats(world, w)
      && forall j :: 0 <= j < i ==> Repeats(world, subsets[j])
  }

  /** The outer enumeration loop, over subset sizes. */
  method ReplayAllSubsets(world: FiniteWorld)
    returns (divergence: Option<Witness>, receipts: seq<ReplayReceipt>, successful: seq<set<string>>)
    requires StrictlySorted(StringLe, AtomNames(world.atoms))
    ensures divergence.None? ==> Progressing(world)(AllSubsets(AtomNames(world.atoms)), receipts, successful)
    ensures divergence.Some? ==> FirstDivergence(world, divergence.value)
  {
    var names := AtomNames(world.atoms);
    divergence, receipts, successful := None, [], [];
    ProgressStart(world);
    for size := 0 to |names| + 1
      invariant divergence.None? && Progressing(world)(SubsetsUpTo(names, size), receipts, successful)
    {
      divergence, receipts, successful := ReplayRow(world, size, receipts, successful);
      if divergence.Some? {
        return;
      }
    }
  }

  /** The inner enumeration loop, over the subsets of one size. */
  method ReplayRow(world: FiniteWorld, size: nat, receipts0: seq<ReplayReceipt>, successful0: seq<set<string>>)
    returns (divergence: Option<Witness>, receipts: seq<ReplayReceipt>, successful: seq<set<string>>)
    requires StrictlySorted(StringLe, AtomNames(world.atoms)) && size <= |AtomNames(world.atoms)|
    requires Progressing(world)(SubsetsUpTo(AtomNames(world.atoms), size), receipts0, successful0)
    ensures divergence.None? ==>
      Progressing(world)(SubsetsUpTo(AtomNames(world.atoms), size + 1), receipts, successful)
    ensures divergence.Some? ==> FirstDivergence(world, divergence.value)
  {
    var names := AtomNames(world.atoms);
    var row := Combinations(names, size);
    divergence, receipts, successful := None, receipts0, successful0;
    ghost var seen := SubsetsUpTo(names, size);
    for i := 0 to |row|
      invariant seen == SubsetsUpTo(names, size) + row[..i]
      invariant divergence.None? && Progress(world, seen, receipts, successful)
    {
      var selected := row[i];
      var interventionSet := Elements(selected);
      var result := world.replay(interventionSet, 0);
      var repeated := world.replay(interventionSet, 1);
      NextSubset(names, seen, size, i);
      var normalized := NormalizedTuple(names, selected);
      if result.None? || result != repeated {
        DivergenceFound(world, seen, selected);
        divergence := Some(normalized);
        return;
      }
      ProgressStep(world, seen, receipts, successful, selected);
      receipts := receipts + [ReplayReceipt(normalized, result.value)];
      if result.value.outcome == Success {
        successful := successful + [interventionSet];
      }
      seen := seen + [selected];
    }
    assert row[..|row|] == row;
  }

  lemma DivergenceFound(world: FiniteWorld, seen: seq<Witness>, w: Witness)
    requires var subsets := AllSubsets(AtomNames(world.atoms));
      && |seen| < |subsets| && subsets[|seen|] == w
      && forall j :: 0 <= j < |seen| ==> seen[j] == subsets[j]
    requires AllRepeat(world, seen) && !Repeats(world, w)
    ensures FirstDivergence(world, w)
  {
    AllRepeatMeans(world, seen);
    var subsets := AllSubsets(AtomNames(world.atoms));
    assert forall j :: 0 <= j < |seen| ==> seen[j] in seen;
    assert subsets[|seen|] == w && forall j :: 0 <= j < |seen| ==> Repeats(world, subsets[j]);
  }

  lemma NextSubset(names: seq<string>, seen: seq<Witness>, size: nat, i: nat)
    requires size <= |names| && i < |Combinations(names, size)|
    requires seen == SubsetsUpTo(names, size) + Combinations(names, size)[..i]
    ensures |seen| < |AllSubsets(names)| && AllSubsets(names)[|seen|] == Combinations(names, size)[i]
    ensures forall j :: 0 <= j < |seen| ==> seen[j] == AllSubsets(names)[j]
    ensures Combinations(names, size)[..i + 1] == Combinations(names, size)[..i] + [Combinations(names, size)[i]]
  {
    PrefixOfAllSubsets(names, size);
    NextInPrefix(SubsetsUpTo(names, size), Combinations(names, size), i, AllSubsets(names));
  }

  lemma NextInPrefix<T>(before: seq<T>, row: seq<T>, i: nat, all: seq<T>)
    requires i < |row| && before + row <= all
    ensures |before + row[..i]| < |all| && all[|before + row[..i]|] == row[i]
    ensures forall j :: 0 <= j < |before + row[..i]| ==> (before + row[..i])[j] == all[j]
    ensures row[..i + 1] == row[..i] + [row[i]]
  {
    assert all[..|before + row|] == before + row;
  }

  /** Replays every subset twice. The panel it returns is the specified one, and
      each refusal is pinned to its cause. */
  method EnumerateRepairPanel(world: FiniteWorld) returns (r: Result<RepairPanel, WorldError>)
    ensures r.Ok? <==>
      && Admissible(world.atoms)
      && (forall w :: w in AllSubsets(AtomNames(world.atoms)) ==> Repeats(world, w))
      && FirstReplays(world)({}).outcome == Failure && world.Steady()
    ensures r.Ok? ==> r.value.Shown() == PanelOf(world.atoms, FirstReplays(world))
    ensures r.Ok? ==> r.value.worldId == world.worldId
    ensures r.Ok? ==> r.value.receipts == Apply(AllSubsets(AtomNames(world.atoms)), FullReceipt(world))
    ensures r == Err(TooManyAtoms) <==> |world.atoms| > MAX_ATOMS
    ensures r == Err(DuplicateAtoms) <==>
      |world.atoms| <= MAX_ATOMS && !Distinct(AtomNames(world.atoms))
    ensures r == Err(UnsortedAtoms) <==>
      && |world.atoms| <= MAX_ATOMS && Distinct(AtomNames(world.atoms))
      && !Sorted(StringLe, AtomNames(world.atoms))
    ensures r.Err? && r.error.ReplayRaised? ==>
      FirstDivergence(world, r.error.interventions) && Raises(world, r.error.interventions)
    ensures r.Err? && r.error.ReplayDiverged? ==>
      FirstDivergence(world, r.error.interventions) && !Raises(world, r.error.interventions)
    ensures r == Err(BaselineSucceeded) ==> FirstReplays(world)({}).outcome == Success
    ensures r == Err(AtomsChanged) ==> world.laterAtoms != world.atoms
    ensures r == Err(NameChanged) ==> world.laterAtoms == world.atoms && world.laterId != world.worldId
  {
    var names := AtomNames(world.atoms);
    if |world.atoms| > MAX_ATOMS {
      return Err(TooManyAtoms);
    }
    SortedTest(names);
    if |Elements(names)| != |names| {
      return Err(DuplicateAtoms);
    }
    if names != Sort(StringLe, names) {
      return Err(UnsortedAtoms);
    }
    var divergence, receipts, successful := ReplayAllSubsets(world);
    AllRepeatMeans(world, AllSubsets(names));
    if divergence.Some? {
      var w := divergence.value;
      return Err(if Raises(world, w) then ReplayRaised(w) else ReplayDiverged(w));
    }
    BaselineReceipt(world);
    ReceiptsShow(world, AllSubsets(names));
    if receipts[0].result.outcome != Failure {
      return Err(BaselineSucceeded);
    }
    MinimalBySetsAgrees(names, Succeeds(FirstReplays(world)));
    MinimalWitnessesProject(world.atoms, Succeeds(FirstReplays(world)));
    var minimal := MinimalBySets(successful);
    var family := TargetFamilyOf(AtomTargets(world.atoms), minimal);
    if world.laterAtoms != world.atoms {
      return Err(AtomsChanged);
    }
    if world.laterId != world.worldId {
      return Err(NameChanged);
    }
    r := Ok(RepairPanel(world.worldId, names, receipts, minimal, family));
  }

  lemma BaselineReceipt(world: FiniteWorld)
    ensures var receipts := Apply(AllSubsets(AtomNames(world.atoms)), FullReceipt(world));
            receipts != [] && receipts[0].result.outcome == FirstReplays(world)({}).outcome
  {
    AllSubsetsLeads(AtomNames(world.atoms));
    assert Elements<string>([]) == {};
  }

  lemma ReceiptsShow(world: FiniteWorld, subsets: seq<Witness>)
    ensures Apply(Apply(subsets, FullReceipt(world)), ShownReceipt) == Apply(subsets, ReceiptOf(FirstReplays(world)))
  {
    forall w ensures ShownReceipt(FullReceipt(world)(w)) == ReceiptOf(FirstReplays(world))(w) {
    }
  }

  /** `normalize_witness(frozenset(selected))` */
  function NormalizedTuple(ghost names: seq<string>, selected: Witness): (w: Witness)
    requires StrictlySorted(StringLe, names) && selected in AllSubsets(names)
    ensures w == selected
  {
    AllSubsetsCanonical(names);
    StringsAreOrdered();
    SortedSetUnique(StringLe, Elements(selected), selected);
    SortedSet(StringLe, Elements(selected))
  }

  /** Both replays agreed on every subset seen. */
  ghost predicate AllRepeat(world: FiniteWorld, seen: seq<Witness>) {
    seen == [] || (AllRepeat(world, seen[..|seen| - 1]) && Repeats(world, seen[|seen| - 1]))
  }

  lemma {:induction false} AllRepeatMeans(world: FiniteWorld, seen: seq<Witness>)
    ensures AllRepeat(world, seen) <==> forall w :: w in seen ==> Repeats(world, w)
  {
    if seen != [] {
      var last := seen[|seen| - 1];
      AllRepeatMeans(world, seen[..|seen| - 1]);
      assert seen == seen[..|seen| - 1] + [last];
    }
  }

  ghost predicate Progress(
    world: FiniteWorld, seen: seq<Witness>, receipts: seq<ReplayReceipt>, successful: seq<set<string>>)
  {
    && AllRepeat(world, seen)
    && receipts == Apply(seen, FullReceipt(world))
    && successful == Apply(Filter(seen, TupleSucceeds(Succeeds(FirstReplays(world)))), Elements)
  }

  ghost function Progressing(world: FiniteWorld): (seq<Witness>, seq<ReplayReceipt>, seq<set<string>>) -> bool {
    (seen: seq<Witness>, receipts: seq<ReplayReceipt>, successful: seq<set<string>>) =>
      Progress(world, seen, receipts, successful)
  }

  lemma ProgressStart(world: FiniteWorld)
    ensures Progressing(world)(SubsetsUpTo(AtomNames(world.atoms), 0), [], [])
  {
  }

  lemma ProgressStep(
      world: FiniteWorld, seen: seq<Witness>, receipts: seq<ReplayReceipt>, successful: seq<set<string>>, w: Witness)
    requires Progress(world, seen, receipts, successful) && Repeats(world, w)
    ensures var receipt := FullReceipt(world)(w);
      Progress(world, seen + [w],
               receipts + [receipt],
               successful + if receipt.result.outcome == Success then [Elements(w)] else [])
  {
    var f := FullReceipt(world);
    var ok := TupleSucceeds(Succeeds(FirstReplays(world)));
    FilterAppend(seen, [w], ok);
    assert (seen + [w])[..|seen|] == seen;
    assert Apply(seen + [w], f) == Apply(seen, f) + [f(w)];
    assert Filter([w], ok) == if ok(w) then [w] else [];
    assert Apply(Filter(seen + [w], ok), Elements)
      == Apply(Filter(seen, ok), Elements) + if ok(w) then [Elements(w)] else [];
  }

  lemma {:induction false} PrefixOfAllSubsets(names: seq<string>, size: nat)
    requires size <= |names|
    ensures SubsetsUpTo(names, size) + Combinations(names, size) <= AllSubsets(names)
  {
    PrefixOfLater(names, size + 1, |names| + 1);
  }

  lemma {:induction false} PrefixOfLater(names: seq<string>, a: nat, b: nat)
    requires a <= b
    ensures SubsetsUpTo(names, a) <= SubsetsUpTo(names, b)
  {
    if a < b {
      PrefixOfLater(names, a, b - 1);
    }
  }
}
