/** Inclusion-minimal repairs of an arbitrary, possibly non-monotone success
    predicate, and their projection to causal targets. */
module Repairs {
  /** A repair that succeeds while every strict subset of it fails. */
  ghost predicate MinimalSuccess(ok: set<string> -> bool, s: set<string>) {
    ok(s) && forall t :: t < s ==> !ok(t)
  }

  /** `{s for s in family if not any(other < s for other in family)}` */
  function MinimalSets(family: set<set<string>>): set<set<string>> {
    set s | s in family && !(exists other :: other in family && other < s)
  }

  function Project(targets: map<string, string>, s: set<string>): set<string>
    requires s <= targets.Keys
  {
    set name | name in s :: targets[name]
  }

  ghost predicate Antichain(family: set<set<string>>) {
    forall a, b :: a in family && b in family ==> !(a < b)
  }

  lemma {:induction false} StrictSubsetIsSmaller<T>(a: set<T>, b: set<T>)
    requires a < b
    ensures |a| < |b|
  {
    var x :| x in b && x !in a;
    if a == {} {
      assert b != {};
    } else {
      var y :| y in a;
      StrictSubsetIsSmaller(a - {y}, b - {y});
    }
  }

  /** Non-monotone or not, every success contains a minimal one. */
  lemma {:induction false} SuccessContainsMinimal(ok: set<string> -> bool, s: set<string>)
    requires ok(s)
    ensures exists t :: t <= s && MinimalSuccess(ok, t)
    decreases |s|
  {
    if MinimalSuccess(ok, s) {
    } else {
      var t :| t < s && ok(t);
      StrictSubsetIsSmaller(t, s);
      SuccessContainsMinimal(ok, t);
      var u :| u <= t && MinimalSuccess(ok, u);
      assert u <= s;
    }
  }

  lemma MinimalSetsAntichain(family: set<set<string>>)
    ensures Antichain(MinimalSets(family)) && MinimalSets(family) <= family
  {
  }

  /** Every member of a finite family lies above a minimal one. */
  lemma {:induction false} MemberAboveMinimal(family: set<set<string>>, s: set<string>)
    requires s in family
    ensures exists m :: m in MinimalSets(family) && m <= s
    decreases |s|
  {
    if s !in MinimalSets(family) {
      var t :| t in family && t < s;
      StrictSubsetIsSmaller(t, s);
      MemberAboveMinimal(family, t);
      var m :| m in MinimalSets(family) && m <= t;
      assert m <= s;
    }
  }

  predicate Covered(part: set<set<string>>, s: set<string>) {
    exists p :: p in part && p <= s
  }

  /** Discarding members that lie above kept ones does not change the minima. */
  lemma MinimaOfCofinalPart(family: set<set<string>>, part: set<set<string>>)
    requires part <= family
    requires forall s {:trigger Covered(part, s)} :: s in family ==> Covered(part, s)
    ensures MinimalSets(part) == MinimalSets(family)
  {
    forall s | s in MinimalSets(family) ensures s in MinimalSets(part) {
      assert Covered(part, s);
      var p :| p in part && p <= s;
      assert !(p < s);
      assert p == s;
    }
    forall s, t | s in MinimalSets(part) && t in family ensures !(t < s) {
      assert Covered(part, t);
      var p :| p in part && p <= t;
      assert !(p < s);
    }
  }

  lemma ProjectMonotone(targets: map<string, string>, a: set<string>, b: set<string>)
    requires a <= b <= targets.Keys
    ensures Project(targets, a) <= Project(targets, b)
  {
  }

  ghost function Successes(ok: set<string> -> bool, universe: set<string>): set<set<string>> {
    set s | s <= universe && ok(s)
  }

  ghost function Minima(ok: set<string> -> bool, universe: set<string>): set<set<string>> {
    set s | s <= universe && MinimalSuccess(ok, s)
  }

  ghost function Projections(targets: map<string, string>, family: set<set<string>>): set<set<string>>
    requires forall s :: s in family ==> s <= targets.Keys
  {
    set s | s in family :: Project(targets, s)
  }

  /** The causal target family that the successes alone determine. */
  ghost function TargetSets(targets: map<string, string>, ok: set<string> -> bool): set<set<string>> {
    MinimalSets(Projections(targets, Successes(ok, targets.Keys)))
  }

  /** Comparing successes pairwise finds exactly the minimal repairs. */
  lemma MinimaAreMinimalSets(ok: set<string> -> bool, universe: set<string>)
    ensures MinimalSets(Successes(ok, universe)) == Minima(ok, universe)
  {
  }

  /** Minimising, projecting and minimising again loses nothing against
      projecting every success and minimising once. */
  lemma TwoStageMinimisation(targets: map<string, string>, ok: set<string> -> bool)
    ensures MinimalSets(Projections(targets, Minima(ok, targets.Keys))) == TargetSets(targets, ok)
  {
    var all := Projections(targets, Successes(ok, targets.Keys));
    var part := Projections(targets, Minima(ok, targets.Keys));
    forall p | p in all ensures Covered(part, p) {
      var s :| s in Successes(ok, targets.Keys) && Project(targets, s) == p;
      SuccessContainsMinimal(ok, s);
      var t :| t <= s && MinimalSuccess(ok, t);
      ProjectMonotone(targets, t, s);
      assert t in Minima(ok, targets.Keys);
      assert Project(targets, t) in part;
    }
    MinimaOfCofinalPart(all, part);
  }

  /** The family is an antichain, is empty only when nothing repairs the
      episode, and never names the empty target set of a failing episode. */
  lemma TargetSetsShape(targets: map<string, string>, ok: set<string> -> bool)
    ensures Antichain(TargetSets(targets, ok))
    ensures TargetSets(targets, ok) == {} <==> forall s :: s <= targets.Keys ==> !ok(s)
    ensures !ok({}) ==> {} !in TargetSets(targets, ok)
    ensures forall t :: t in TargetSets(targets, ok) ==> t <= targets.Values
  {
    var all := Projections(targets, Successes(ok, targets.Keys));
    MinimalSetsAntichain(all);
    if s :| s <= targets.Keys && ok(s) {
      assert s in Successes(ok, targets.Keys);
      assert Project(targets, s) in all;
      MemberAboveMinimal(all, Project(targets, s));
    }
    forall t | t in TargetSets(targets, ok)
      ensures exists s :: s <= targets.Keys && ok(s) && Project(targets, s) == t
    {
      assert t in all;
    }
    if {} in TargetSets(targets, ok) {
      var s :| s <= targets.Keys && ok(s) && Project(targets, s) == {};
      assert forall name :: name in s ==> targets[name] in Project(targets, s);
      assert s == {};
    }
  }
}
