/** The repair panel of an episode with one sufficient and necessary atom. */
module SingleCause {
  import opened Model
  import opened Order
  import opened Subsets
  import opened Repairs
  import opened Panels

  /** `cause` alone decides the outcome of every declared subset. */
  ghost predicate Decides(cause: string, world: World, universe: set<string>) {
    cause in universe && forall s :: s <= universe ==> (world(s).outcome == Success <==> cause in s)
  }

  lemma OnlyMinimum(cause: string, world: World, universe: set<string>)
    requires Decides(cause, world, universe)
    ensures Minima(Succeeds(world), universe) == {{cause}}
  {
    var ok := Succeeds(world);
    forall s | s <= universe ensures MinimalSuccess(ok, s) <==> s == {cause} {
      if MinimalSuccess(ok, s) {
        assert {cause} <= s && ok({cause}) && !({cause} < s);
      }
    }
    assert MinimalSuccess(ok, {cause});
  }

  lemma {:induction false} FilterOne<T(!new)>(s: seq<T>, keep: T -> bool, x: T)
    requires Distinct(s) && x in s && forall y :: y in s ==> (keep(y) <==> y == x)
    ensures Filter(s, keep) == [x]
  {
    if s[0] == x {
      assert s == [s[0]] + s[1..];
      assert forall y :: y in s[1..] ==> !keep(y);
      assert Filter(s[1..], keep) == [] by {
        if Filter(s[1..], keep) != [] {
          assert Filter(s[1..], keep)[0] in Filter(s[1..], keep);
        }
      }
    } else {
      FilterOne(s[1..], keep, x);
    }
  }

  lemma SingletonTuple(x: string, w: Witness)
    requires StrictlySorted(StringLe, w)
    ensures Elements(w) == {x} <==> w == [x]
  {
    DistinctCardinality(w);
    if Elements(w) == {x} {
      assert |w| == 1 && w[0] in Elements(w);
      assert w == [w[0]];
    }
  }

  lemma SingletonFamily(target: string)
    ensures FamilyTuple({{target}}) == [[target]]
  {
    StringsAreOrdered();
    TuplesAreOrdered();
    SortedSetUnique(StringLe, {target}, [target]);
    var family := FamilyTuple({{target}});
    forall t ensures t in Elements(family) <==> t == [target] {
      assert {target} in {{target}};
    }
    assert Elements(family) == {[target]};
    SortedSetUnique(TupleLe, {[target]}, [[target]]);
    SortedSetUnique(TupleLe, {[target]}, family);
  }

  lemma OneMinimalWitness(names: seq<string>, world: World, cause: string)
    requires StrictlySorted(StringLe, names) && Decides(cause, world, Elements(names))
    ensures Filter(AllSubsets(names), IsMinimalTuple(Succeeds(world))) == [[cause]]
  {
    AllSubsetsCanonical(names);
    OnlyMinimum(cause, world, Elements(names));
    assert Elements([cause]) == {cause};
    assert [cause] in AllSubsets(names);
    var keep := IsMinimalTuple(Succeeds(world));
    forall w | w in AllSubsets(names) ensures keep(w) <==> w == [cause] {
      assert keep(w) <==> Elements(w) in Minima(Succeeds(world), Elements(names));
      SingletonTuple(cause, w);
    }
    FilterOne(AllSubsets(names), keep, [cause]);
  }

  /** Whatever else is declared, such an episode has one minimal repair and one
      singleton target. */
  lemma SingleCausePanel(atoms: seq<Atom>, world: World, cause: string)
    requires StrictlySorted(StringLe, AtomNames(atoms)) && Decides(cause, world, Elements(AtomNames(atoms)))
    ensures cause in AtomTargets(atoms)
    ensures PanelOf(atoms, world).minimalWitnesses == [[cause]]
    ensures PanelOf(atoms, world).targetFamily == [[AtomTargets(atoms)[cause]]]
  {
    var targets := AtomTargets(atoms);
    TargetsCoverNames(atoms);
    OneMinimalWitness(AtomNames(atoms), world, cause);
    OnlyMinimum(cause, world, targets.Keys);
    TwoStageMinimisation(targets, Succeeds(world));
    assert Projections(targets, {{cause}}) == {{targets[cause]}} by {
      assert Project(targets, {cause}) == {targets[cause]};
      assert {cause} in {{cause}};
    }
    assert MinimalSets({{targets[cause]}}) == {{targets[cause]}};
    SingletonFamily(targets[cause]);
  }
}
