/** Exact reduced rationals and their macro mean
    (src/witnessgap/workspace100/scoring.py:155-203, 1009-1067). */
module Ratios {
  import opened Model
  import opened Order
  import opened Permutations

  // ---------- greatest common divisors ----------

  /** `math.gcd` */
  function Gcd(a: nat, b: nat): nat
    decreases b
  {
    if b == 0 then a else Gcd(b, a % b)
  }

  /** `//` on non-negative integers. */
  function FloorDivide(n: nat, d: nat): nat
    requires d > 0
  {
    n / d
  }

  ghost predicate Divides(k: nat, n: nat) {
    exists q: nat :: n == k * q
  }

  lemma DividesBy(k: nat, n: nat, q: nat)
    requires n == k * q
    ensures Divides(k, n)
  {
  }

  lemma FactorOut(k: nat, c: nat, p: nat, q: nat)
    ensures c * (k * p) + k * q == k * (c * p + q)
  {
    assert c * (k * p) == k * (c * p);
    assert k * (c * p + q) == k * (c * p) + k * q;
  }

  lemma ModStep(a: nat, b: nat, k: nat)
    requires b > 0 && Divides(k, b) && Divides(k, a % b)
    ensures Divides(k, a)
  {
    var c: nat, r: nat := FloorDivide(a, b), a % b;
    assert a == c * b + r;
    var p: nat :| b == k * p;
    var q: nat :| r == k * q;
    FactorOut(k, c, p, q);
    DividesBy(k, a, c * p + q);
  }

  lemma {:induction false} GcdDivides(a: nat, b: nat)
    ensures Divides(Gcd(a, b), a) && Divides(Gcd(a, b), b)
    decreases b
  {
    if b == 0 {
      DividesBy(a, a, 1);
      DividesBy(a, 0, 0);
    } else {
      GcdDivides(b, a % b);
      ModStep(a, b, Gcd(b, a % b));
    }
  }

  lemma {:induction false} GcdPositive(a: nat, b: nat)
    requires a > 0 || b > 0
    ensures Gcd(a, b) > 0
    decreases b
  {
    if b != 0 {
      GcdPositive(b, a % b);
    }
  }

  lemma ModScales(k: nat, a: nat, b: nat)
    requires k > 0 && b > 0
    ensures k * b > 0 && (k * a) % (k * b) == k * (a % b)
  {
    var q, r := a / b, a % b;
    assert a == q * b + r;
    assert k * b > 0 by { MulPositive(k, b); }
    assert k * a == q * (k * b) + k * r by {
      assert k * (q * b + r) == k * (q * b) + k * r;
      assert k * (q * b) == q * (k * b);
    }
    assert 0 <= k * r < k * b by { MulLess(k, r, b); }
    ModUnique(k * a, k * b, q, k * r);
  }

  lemma MulPositive(a: nat, b: nat)
    requires a > 0 && b > 0
    ensures a * b > 0
  {
  }

  lemma MulLess(k: nat, r: nat, b: nat)
    requires k > 0 && r < b
    ensures 0 <= k * r < k * b
  {
    assert k * b == k * r + k * (b - r);
    MulPositive(k, b - r);
  }

  lemma MulAtLeast(t: nat, d: nat)
    requires t > 0
    ensures t * d >= d
  {
    assert t * d == (t - 1) * d + d;
  }

  lemma ModUnique(n: nat, d: nat, q: nat, r: nat)
    requires d > 0 && n == q * d + r && r < d
    ensures n % d == r && n / d == q
  {
    QuotientUnique(d, q, r, n / d, n % d);
  }

  /** Quotient and remainder are unique. */
  lemma QuotientUnique(d: nat, q: nat, r: nat, q': nat, r': nat)
    requires r < d && r' < d && q * d + r == q' * d + r'
    ensures q == q' && r == r'
  {
    if q < q' {
      assert q' * d == q * d + (q' - q) * d;
      MulAtLeast(q' - q, d);
    } else if q > q' {
      assert q * d == q' * d + (q - q') * d;
      MulAtLeast(q - q', d);
    }
  }

  /** A common factor can be taken out. */
  lemma {:induction false} GcdScales(k: nat, a: nat, b: nat)
    requires k > 0
    ensures Gcd(k * a, k * b) == k * Gcd(a, b)
    decreases b
  {
    if b == 0 {
      assert k * b == 0;
    } else {
      ModScales(k, a, b);
      GcdScales(k, b, a % b);
    }
  }

  // ---------- canonical ratios ----------

  /** `Workspace100ExactRatio` */
  datatype ExactRatio = NotApplicable | Ratio(numerator: nat, denominator: nat) {
    /** `validate` */
    predicate Valid() {
      NotApplicable? || (denominator != 0 && numerator <= denominator && Gcd(numerator, denominator) == 1)
    }
  }

  datatype RatioError = NumeratorExceeds | BadZeroDenominator

  /** `Workspace100ExactRatio.from_fraction` */
  function FromFraction(numerator: nat, denominator: nat): Result<ExactRatio, RatioError> {
    if numerator > denominator then Err(NumeratorExceeds)
    else if denominator == 0 then (if numerator != 0 then Err(BadZeroDenominator) else Ok(NotApplicable))
    else
      GcdPositive(numerator, denominator);
      var divisor := Gcd(numerator, denominator);
      Ok(Ratio(FloorDivide(numerator, divisor), FloorDivide(denominator, divisor)))
  }

  lemma Quotient(n: nat, g: nat) returns (q: nat)
    requires g > 0 && Divides(g, n)
    ensures n == g * q && FloorDivide(n, g) == q
  {
    q :| n == g * q;
    ModUnique(n, g, q, 0);
  }

  lemma NonzeroFactor(g: nat, q: nat)
    requires g * q > 0
    ensures q > 0
  {
  }

  lemma CancelLeft(g: nat, a: nat, b: nat)
    requires g > 0 && g * a == g * b
    ensures a == b
  {
    if a < b {
      MulLess(g, a, b);
    } else if b < a {
      MulLess(g, b, a);
    }
  }

  /** Dividing by the greatest common divisor reduces a fraction and keeps its
      value. */
  lemma Reduced(n: nat, d: nat)
    requires d > 0
    ensures var g := Gcd(n, d);
      && g > 0 && FloorDivide(d, g) > 0
      && n == g * FloorDivide(n, g) && d == g * FloorDivide(d, g)
      && Gcd(FloorDivide(n, g), FloorDivide(d, g)) == 1
  {
    var g := Gcd(n, d);
    GcdPositive(n, d);
    GcdDivides(n, d);
    var p := Quotient(n, g);
    var q := Quotient(d, g);
    GcdScales(g, p, q);
    assert g * Gcd(p, q) == g * 1;
    CancelLeft(g, Gcd(p, q), 1);
    NonzeroFactor(g, q);
  }

  lemma FactorLe(g: nat, p: nat, q: nat)
    requires g > 0 && g * p <= g * q
    ensures p <= q
  {
    if p > q {
      MulLess(g, q, p);
    }
  }

  lemma CrossProducts(g: nat, p: nat, q: nat, n: nat, d: nat)
    requires n == g * p && d == g * q
    ensures p * d == n * q
  {
    assert p * (g * q) == (g * p) * q;
  }

  /** `from_fraction` always meets its own constructor checks, keeps the value,
      and is not applicable exactly on an empty denominator. */
  lemma FromFractionIsCanonical(n: nat, d: nat)
    requires n <= d
    ensures FromFraction(n, d).Ok?
    ensures var r := FromFraction(n, d).value;
      && r.Valid()
      && (r.NotApplicable? <==> d == 0)
      && (r.Ratio? ==> r.numerator * d == n * r.denominator)
  {
    if d > 0 {
      var g := Gcd(n, d);
      Reduced(n, d);
      var p, q := FloorDivide(n, g), FloorDivide(d, g);
      FactorLe(g, p, q);
      CrossProducts(g, p, q, n, d);
    }
  }

  /** Equal products of reduced fractions mean equal fractions. */
  lemma ReducedIsUnique(a: nat, b: nat, c: nat, d: nat)
    requires b > 0 && d > 0 && Gcd(a, b) == 1 && Gcd(c, d) == 1
    requires a * d == c * b
    ensures a == c && b == d
  {
    GcdScales(d, a, b);
    GcdScales(b, c, d);
    assert d * a == b * c && d * b == b * d;
    assert d * Gcd(a, b) == b * Gcd(c, d);
    assert a * d == c * d;
    CancelLeft(d, a, c);
  }

  /** A canonical form: two fractions give one record exactly when they are the
      same rational, or both have an empty denominator. */
  lemma CanonicalForm(n: nat, d: nat, n': nat, d': nat)
    requires n <= d && n' <= d'
    ensures FromFraction(n, d) == FromFraction(n', d') <==> (d == 0 <==> d' == 0) && n * d' == n' * d
  {
    FromFractionIsCanonical(n, d);
    FromFractionIsCanonical(n', d');
    if d > 0 && d' > 0 {
      var r, r' := FromFraction(n, d).value, FromFraction(n', d').value;
      if n * d' == n' * d {
        SameRational(r.numerator, r.denominator, n, d, n', d');
        SameRational(r.denominator * n', r.denominator * d', r.denominator * n', r.denominator * d', n', d');
        assert r.numerator * d' == n' * r.denominator;
        SameRational(r.numerator, r.denominator, n', d', r'.numerator, r'.denominator);
        ReducedIsUnique(r.numerator, r.denominator, r'.numerator, r'.denominator);
      } else if r == r' {
        SameRational(n, d, r.numerator, r.denominator, n', d');
      }
    }
  }

  /** Equality of fractions is transitive. */
  lemma SameRational(a: nat, b: nat, c: nat, d: nat, e: nat, f: nat)
    requires d > 0 && a * d == c * b && c * f == e * d
    ensures a * f == e * b
  {
    assert d * (a * f) == (a * d) * f;
    assert (c * b) * f == (c * f) * b;
    assert (e * d) * b == d * (e * b);
    CancelLeft(d, a * f, e * b);
  }

  // ---------- rates and macro means ----------

  /** `Workspace100Rate` */
  datatype Rate = Rate(numerator: nat, denominator: nat, ratio: ExactRatio) {
    predicate Valid() {
      numerator <= denominator && FromFraction(numerator, denominator) == Ok(ratio)
    }
  }

  /** `Workspace100Rate.from_counts`; `None` stands for its refusal. */
  function FromCounts(numerator: nat, denominator: nat): Option<Rate> {
    match FromFraction(numerator, denominator)
    case Err(_) => None
    case Ok(ratio) => Some(Rate(numerator, denominator, ratio))
  }

  datatype Quotients = Quotients(numerator: nat, denominator: nat)

  /** `fractions.Fraction`; arithmetic keeps it in lowest terms. */
  type Fraction = f: Quotients | f.denominator > 0 witness Quotients(0, 1)

  ghost predicate LowestTerms(f: Fraction) {
    Gcd(f.numerator, f.denominator) == 1
  }

  function MakeFraction(n: nat, d: nat): (f: Fraction)
    requires d > 0
  {
    Reduced(n, d);
    Quotients(FloorDivide(n, Gcd(n, d)), FloorDivide(d, Gcd(n, d)))
  }

  function Product(a: nat, b: nat): (p: nat)
    ensures a > 0 && b > 0 ==> p > 0
  {
    a * b
  }

  function Add(a: Fraction, b: Fraction): Fraction {
    MakeFraction(
      Product(a.numerator, b.denominator) + Product(b.numerator, a.denominator),
      Product(a.denominator, b.denominator))
  }

  function DivideBy(a: Fraction, count: nat): Fraction
    requires count > 0
  {
    MakeFraction(a.numerator, Product(a.denominator, count))
  }

  /** `sum(..., start=Fraction(0, 1))` */
  function SumFractions(fs: seq<Fraction>): Fraction {
    if fs == [] then Quotients(0, 1) else Add(SumFractions(fs[..|fs| - 1]), fs[|fs| - 1])
  }

  function IsDefined(): Rate -> bool {
    (r: Rate) => r.ratio.Ratio? && r.ratio.denominator > 0
  }

  function AsFraction(r: Rate): Fraction {
    if IsDefined()(r) then Quotients(r.ratio.numerator, r.ratio.denominator) else Quotients(0, 1)
  }

  /** `Workspace100MacroRate` */
  datatype MacroRate = MacroRate(definedCount: nat, ratio: ExactRatio) {
    predicate Valid() {
      ratio.Valid() && (ratio.Ratio? <==> definedCount > 0)
    }
  }

  /** `Workspace100MacroRate.from_rates`, for any number of rates. */
  function FromRates(rates: seq<Rate>): MacroRate {
    var defined := Filter(rates, IsDefined());
    if defined == [] then MacroRate(0, NotApplicable)
    else
      var mean := DivideBy(SumFractions(Apply(defined, AsFraction)), |defined|);
      MacroRate(|defined|, Ratio(mean.numerator, mean.denominator))
  }

  // ---------- the true mean ----------

  ghost function Value(n: nat, d: nat): real
    requires d > 0
  {
    n as real / d as real
  }

  lemma QuotientIs(x: real, y: real, z: real)
    requires y > 0.0 && x == z * y
    ensures x / y == z
  {
  }

  lemma CrossValue(a: nat, b: nat, c: nat, d: nat)
    requires b > 0 && d > 0 && a * d == c * b
    ensures Value(a, b) == Value(c, d)
  {
    var v := Value(c, d);
    assert a as real * d as real == c as real * b as real;
    assert c as real == v * d as real;
    assert a as real * d as real == (v * b as real) * d as real;
    CancelReal(a as real, v * b as real, d as real);
    QuotientIs(a as real, b as real, v);
  }

  lemma CancelReal(x: real, y: real, d: real)
    requires d > 0.0 && x * d == y * d
    ensures x == y
  {
  }

  lemma MakeFractionKeepsValue(n: nat, d: nat)
    requires d > 0
    ensures var f := MakeFraction(n, d);
      LowestTerms(f) && Value(f.numerator, f.denominator) == Value(n, d)
  {
    var f := MakeFraction(n, d);
    Reduced(n, d);
    CrossProducts(Gcd(n, d), f.numerator, f.denominator, n, d);
    CrossValue(f.numerator, f.denominator, n, d);
  }

  ghost function Worth(f: Fraction): real {
    Value(f.numerator, f.denominator)
  }

  lemma SumOfQuotients(a: real, b: real, c: real, d: real)
    requires b > 0.0 && d > 0.0
    ensures b * d > 0.0 && (a * d + c * b) / (b * d) == a / b + c / d
  {
    var x, y := a / b, c / d;
    assert a == x * b && c == y * d;
    assert a * d + c * b == (x + y) * (b * d);
    QuotientIs(a * d + c * b, b * d, x + y);
  }

  lemma RealProduct(a: nat, b: nat)
    ensures Product(a, b) as real == a as real * b as real
  {
  }

  lemma SumValue(a: nat, b: nat, c: nat, d: nat)
    requires b > 0 && d > 0
    ensures Product(b, d) > 0
    ensures Value(Product(a, d) + Product(c, b), Product(b, d)) == Value(a, b) + Value(c, d)
  {
    RealProduct(a, d);
    RealProduct(c, b);
    RealProduct(b, d);
    SumOfQuotients(a as real, b as real, c as real, d as real);
  }

  lemma AddIsSum(a: Fraction, b: Fraction)
    ensures LowestTerms(Add(a, b)) && Worth(Add(a, b)) == Worth(a) + Worth(b)
  {
    MakeFractionKeepsValue(
      Product(a.numerator, b.denominator) + Product(b.numerator, a.denominator),
      Product(a.denominator, b.denominator));
    SumValue(a.numerator, a.denominator, b.numerator, b.denominator);
  }

  lemma DivideTwice(a: real, b: real, k: real)
    requires b > 0.0 && k > 0.0
    ensures b * k > 0.0 && a / (b * k) == (a / b) / k
  {
    var x := (a / b) / k;
    assert a / b == x * k;
    assert a == (a / b) * b;
    assert a == x * (b * k);
    QuotientIs(a, b * k, x);
  }

  lemma DivideByIsQuotient(a: Fraction, count: nat)
    requires count > 0
    ensures LowestTerms(DivideBy(a, count)) && Worth(DivideBy(a, count)) == Worth(a) / count as real
  {
    MakeFractionKeepsValue(a.numerator, Product(a.denominator, count));
    QuotientValue(a.numerator, a.denominator, count);
  }

  lemma QuotientValue(a: nat, b: nat, count: nat)
    requires b > 0 && count > 0
    ensures Product(b, count) > 0 && Value(a, Product(b, count)) == Value(a, b) / count as real
  {
    RealProduct(b, count);
    DivideTwice(a as real, b as real, count as real);
  }

  ghost function Total(fs: seq<Fraction>): real {
    if fs == [] then 0.0 else Total(fs[..|fs| - 1]) + Worth(fs[|fs| - 1])
  }

  lemma {:induction false} SumIsTotal(fs: seq<Fraction>)
    ensures Worth(SumFractions(fs)) == Total(fs)
  {
    if fs == [] {
      QuotientIs(0.0, 1.0, 0.0);
    } else {
      SumIsTotal(fs[..|fs| - 1]);
      AddIsSum(SumFractions(fs[..|fs| - 1]), fs[|fs| - 1]);
    }
  }

  lemma {:induction false} TotalAppend(a: seq<Fraction>, b: seq<Fraction>)
    ensures Total(a + b) == Total(a) + Total(b)
  {
    if b == [] {
      assert a + b == a;
    } else {
      assert (a + b)[..|a + b| - 1] == a + b[..|b| - 1];
      TotalAppend(a, b[..|b| - 1]);
    }
  }

  lemma TotalWithout(b: seq<Fraction>, i: nat)
    requires i < |b|
    ensures Total(b) == Total(b[..i] + b[i + 1..]) + Worth(b[i])
  {
    TotalAppend(b[..i + 1], b[i + 1..]);
    TotalAppend(b[..i], b[i + 1..]);
    assert b == b[..i + 1] + b[i + 1..];
    assert b[..i + 1][..i] == b[..i];
  }

  /** The total does not depend on the order. */
  lemma {:induction false} TotalOfPermutation(a: seq<Fraction>, b: seq<Fraction>)
    requires multiset(a) == multiset(b)
    ensures Total(a) == Total(b)
    decreases |a|
  {
    SameMultiset(a, b);
    if a != [] {
      assert a[|a| - 1] in Elements(b);
      var i :| 0 <= i < |b| && b[i] == a[|a| - 1];
      RemoveSame(a, b, i);
      TotalWithout(b, i);
      TotalOfPermutation(a[..|a| - 1], b[..i] + b[i + 1..]);
    }
  }

  /** A fraction in lowest terms is determined by its value. */
  lemma LowestTermsUnique(a: Fraction, b: Fraction)
    requires LowestTerms(a) && LowestTerms(b) && Worth(a) == Worth(b)
    ensures a == b
  {
    var n, d, n', d' := a.numerator, a.denominator, b.numerator, b.denominator;
    assert n as real == Worth(a) * d as real && n' as real == Worth(b) * d' as real;
    assert (n * d') as real == n as real * d' as real && (n' * d) as real == n' as real * d as real;
    assert n as real * d' as real == n' as real * d as real;
    ReducedIsUnique(n, d, n', d');
  }

  ghost function Mean(fs: seq<Fraction>): real
    requires fs != []
  {
    Total(fs) / |fs| as real
  }

  ghost function Defined(rates: seq<Rate>): seq<Fraction> {
    Apply(Filter(rates, IsDefined()), AsFraction)
  }

  lemma {:induction false} TotalBounded(fs: seq<Fraction>)
    requires forall i :: 0 <= i < |fs| ==> Worth(fs[i]) <= 1.0
    ensures Total(fs) <= |fs| as real
  {
    if fs != [] {
      TotalBounded(fs[..|fs| - 1]);
    }
  }

  lemma AtMostOne(n: nat, d: nat)
    requires d > 0
    ensures Value(n, d) <= 1.0 <==> n <= d
  {
    var v := Value(n, d);
    assert n as real == v * d as real;
    if v <= 1.0 {
      assert v * d as real <= 1.0 * d as real;
    } else {
      assert v * d as real > 1.0 * d as real;
    }
  }

  lemma QuotientAtMostOne(x: real, k: real)
    requires k > 0.0 && x <= k
    ensures x / k <= 1.0
  {
  }

  /** The macro rate of any list of rates is the true mean of the defined ones,
      reduced, and never above one: its own constructor cannot refuse it. */
  lemma MacroIsMean(rates: seq<Rate>)
    requires forall r :: r in rates ==> r.Valid()
    ensures var macro := FromRates(rates);
      && macro.Valid() && macro.definedCount == |Defined(rates)|
      && (macro.ratio.Ratio? ==>
            && macro.ratio.denominator > 0
            && Value(macro.ratio.numerator, macro.ratio.denominator) == Mean(Defined(rates)))
  {
    var fs := Defined(rates);
    if fs != [] {
      var mean := DivideBy(SumFractions(fs), |fs|);
      SumIsTotal(fs);
      DivideByIsQuotient(SumFractions(fs), |fs|);
      DefinedAtMostOne(rates);
      TotalBounded(fs);
      QuotientAtMostOne(Total(fs), |fs| as real);
      AtMostOne(mean.numerator, mean.denominator);
    }
  }

  lemma DefinedAtMostOne(rates: seq<Rate>)
    requires forall r :: r in rates ==> r.Valid()
    ensures forall i :: 0 <= i < |Defined(rates)| ==> Worth(Defined(rates)[i]) <= 1.0
  {
    var kept := Filter(rates, IsDefined());
    forall i | 0 <= i < |kept| ensures Worth(Defined(rates)[i]) <= 1.0 {
      assert kept[i] in rates;
      FromFractionIsCanonical(kept[i].numerator, kept[i].denominator);
      AtMostOne(kept[i].ratio.numerator, kept[i].ratio.denominator);
    }
  }

  /** Reordering the rates never changes the macro rate. */
  lemma MacroIgnoresOrder(rates: seq<Rate>, rates': seq<Rate>)
    requires multiset(rates) == multiset(rates')
    ensures FromRates(rates) == FromRates(rates')
  {
    var fs, fs' := Defined(rates), Defined(rates');
    FilterPermutation(rates, rates', IsDefined());
    ApplyPermutation(Filter(rates, IsDefined()), Filter(rates', IsDefined()), AsFraction);
    SameMultiset(fs, fs');
    if fs != [] {
      TotalOfPermutation(fs, fs');
      SumIsTotal(fs);
      SumIsTotal(fs');
      DivideByIsQuotient(SumFractions(fs), |fs|);
      DivideByIsQuotient(SumFractions(fs'), |fs'|);
      LowestTermsUnique(DivideBy(SumFractions(fs), |fs|), DivideBy(SumFractions(fs'), |fs'|));
    }
  }
}
