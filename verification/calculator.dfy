/** The growth calculator: compound annual growth rate (CAGR), cumulative
    compounding of monthly rates and inflation-adjusted CAGR, over exact reals.

    The source's fractional power `x ** (1 / n)` cannot be computed over
    Dafny's reals, so it is a parameter `root`; the only thing assumed about
    it is `IsNthRoot`: `root(x, n)` is a positive n-th root of every positive x. */
module Calculator {
  import opened Wrappers
  import opened Seqs

  datatype CalcError =
    | StartNotPositive        // "Start value must be greater than zero"
    | EndNegative             // "End value cannot be negative"
    | YearsNotPositive        // "Years must be greater than zero"
    | EmptyRates              // "Monthly rates list cannot be empty"
    | InflationNotAboveMinusOne  // cumulative inflation at or below -1
    | DivisionByZero          // Python's ZeroDivisionError (as-written real CAGR only)

  function Pow(x: real, n: nat): real {
    if n == 0 then 1.0 else x * Pow(x, n - 1)
  }

  ghost predicate IsNthRoot(root: (real, nat) -> real) {
    forall x: real, n: nat :: x > 0.0 && n > 0 ==> root(x, n) > 0.0 && Pow(root(x, n), n) == x
  }

  lemma {:induction false} PowPositive(x: real, n: nat)
    requires x > 0.0
    ensures Pow(x, n) > 0.0
  {
    if n > 0 {
      PowPositive(x, n - 1);
    }
  }

  lemma {:induction false} PowOne(n: nat)
    ensures Pow(1.0, n) == 1.0
  {
    if n > 0 {
      PowOne(n - 1);
    }
  }

  /** Raising to a positive power is strictly increasing on positive reals. */
  lemma {:induction false} PowStrictlyIncreasing(a: real, b: real, n: nat)
    requires 0.0 < a < b && n > 0
    ensures Pow(a, n) < Pow(b, n)
  {
    if n > 1 {
      PowStrictlyIncreasing(a, b, n - 1);
      PowPositive(a, n - 1);
      var pa, pb := Pow(a, n - 1), Pow(b, n - 1);
      assert a * pa < b * pa;
      assert b * pa < b * pb;
    }
  }

  /** A positive real has at most one positive n-th root. */
  lemma PositiveRootUnique(a: real, b: real, n: nat)
    requires a > 0.0 && b > 0.0 && n > 0 && Pow(a, n) == Pow(b, n)
    ensures a == b
  {
    if a < b {
      PowStrictlyIncreasing(a, b, n);
    } else if b < a {
      PowStrictlyIncreasing(b, a, n);
    }
  }

  /** The growth factor over `n` years compares with 1 as the root does. */
  lemma PowComparesWithOne(g: real, n: nat)
    requires g > 0.0 && n > 0
    ensures Pow(g, n) > 1.0 <==> g > 1.0
    ensures Pow(g, n) == 1.0 <==> g == 1.0
  {
    PowOne(n);
    if g < 1.0 {
      PowStrictlyIncreasing(g, 1.0, n);
    } else if g > 1.0 {
      PowStrictlyIncreasing(1.0, g, n);
    }
  }

  /** CAGR = (end / start) ^ (1 / years) - 1, after three ordered checks,
      with a total loss reported as exactly -1. */
  function Cagr(startValue: real, endValue: real, years: int, root: (real, nat) -> real): (r: Result<real, CalcError>)
    ensures startValue <= 0.0 ==> r == Failure(StartNotPositive)
    ensures startValue > 0.0 && endValue < 0.0 ==> r == Failure(EndNegative)
    ensures startValue > 0.0 && endValue >= 0.0 && years <= 0 ==> r == Failure(YearsNotPositive)
    ensures r.Success? <==> startValue > 0.0 && endValue >= 0.0 && years > 0
    ensures r.Success? && endValue == 0.0 ==> r.value == -1.0
    ensures IsNthRoot(root) && r.Success? && endValue > 0.0 ==>
      r.value > -1.0 && Pow(1.0 + r.value, years) == endValue / startValue
  {
    if startValue <= 0.0 then Failure(StartNotPositive)
    else if endValue < 0.0 then Failure(EndNegative)
    else if years <= 0 then Failure(YearsNotPositive)
    else if endValue == 0.0 then Success(-1.0)
    else Success(root(endValue / startValue, years) - 1.0)
  }

  /** The CAGR does not depend on which n-th root function is used. */
  lemma CagrRootIndependent(
    startValue: real, endValue: real, years: int,
    root1: (real, nat) -> real, root2: (real, nat) -> real)
    requires IsNthRoot(root1) && IsNthRoot(root2)
    ensures Cagr(startValue, endValue, years, root1) == Cagr(startValue, endValue, years, root2)
  {
    if startValue > 0.0 && endValue > 0.0 && years > 0 {
      var x := endValue / startValue;
      PositiveRootUnique(root1(x, years), root2(x, years), years);
    }
  }

  lemma RatioComparesWithOne(startValue: real, endValue: real)
    requires startValue > 0.0
    ensures endValue / startValue > 1.0 <==> endValue > startValue
    ensures endValue / startValue == 1.0 <==> endValue == startValue
  {
    var x := endValue / startValue;
    assert x * startValue == endValue;
    if x > 1.0 {
      assert x * startValue > 1.0 * startValue;
    } else if x < 1.0 {
      assert x * startValue < 1.0 * startValue;
    }
  }

  /** The CAGR is positive, zero or negative exactly as the value grew,
      stayed flat or shrank. */
  lemma CagrSign(startValue: real, endValue: real, years: int, root: (real, nat) -> real)
    requires IsNthRoot(root)
    requires startValue > 0.0 && endValue >= 0.0 && years > 0
    ensures Cagr(startValue, endValue, years, root).Success?
    ensures Cagr(startValue, endValue, years, root).value > 0.0 <==> endValue > startValue
    ensures Cagr(startValue, endValue, years, root).value == 0.0 <==> endValue == startValue
    ensures Cagr(startValue, endValue, years, root).value < 0.0 <==> endValue < startValue
  {
    if endValue > 0.0 {
      var x := endValue / startValue;
      var g := root(x, years);
      PowComparesWithOne(g, years);
      RatioComparesWithOne(startValue, endValue);
    }
  }

  /** Over one year the CAGR is the plain growth ratio minus one. */
  lemma CagrOneYear(startValue: real, endValue: real, root: (real, nat) -> real)
    requires IsNthRoot(root)
    requires startValue > 0.0 && endValue >= 0.0
    ensures Cagr(startValue, endValue, 1, root) == Success(endValue / startValue - 1.0)
  {
    if endValue > 0.0 {
      var g := root(endValue / startValue, 1);
      assert Pow(g, 1) == g;
    }
  }

  /** The product of (1 + rate) over every rate. */
  function Compound(rates: seq<real>): real {
    if |rates| == 0 then 1.0 else (1.0 + rates[0]) * Compound(rates[1..])
  }

  lemma {:induction false} CompoundAppend(a: seq<real>, b: seq<real>)
    ensures Compound(a + b) == Compound(a) * Compound(b)
  {
    if |a| == 0 {
      assert a + b == b;
    } else {
      assert (a + b)[0] == a[0] && (a + b)[1..] == a[1..] + b;
      CompoundAppend(a[1..], b);
      var h, t, u := 1.0 + a[0], Compound(a[1..]), Compound(b);
      assert Compound(a + b) == h * (t * u);
      MulAssociative(h, t, u);
    }
  }

  /** Taking one rate out of the product divides out its factor. */
  lemma {:induction false} CompoundRemove(b: seq<real>, k: nat)
    requires k < |b|
    ensures Compound(b) == (1.0 + b[k]) * Compound(b[..k] + b[k + 1..])
  {
    if k == 0 {
      assert b[..k] + b[k + 1..] == b[1..];
    } else {
      var tail := b[1..];
      CompoundRemove(tail, k - 1);
      var restTail := tail[..k - 1] + tail[k..];
      assert b[..k] + b[k + 1..] == [b[0]] + restTail;
      assert ([b[0]] + restTail)[1..] == restTail;
      var x, y, r := 1.0 + b[0], 1.0 + b[k], Compound(restTail);
      assert Compound(tail) == y * r;
      assert Compound(b) == x * (y * r);
      assert Compound(b[..k] + b[k + 1..]) == x * r;
      MulSwap(x, y, r);
    }
  }

  /** Compounding is insensitive to the order of the rates. */
  lemma {:induction false} CompoundPermutation(a: seq<real>, b: seq<real>)
    requires multiset(a) == multiset(b)
    ensures Compound(a) == Compound(b)
    decreases |a|
  {
    if |a| == 0 {
      assert |b| == |multiset(b)| == 0;
    } else {
      var k := RemoveMatching(a, b);
      CompoundPermutation(a[1..], b[..k] + b[k + 1..]);
      CompoundRemove(b, k);
    }
  }

  lemma MulAssociative(x: real, y: real, z: real)
    ensures x * (y * z) == (x * y) * z
  {
  }

  lemma MulSwap(x: real, y: real, r: real)
    ensures x * (y * r) == y * (x * r)
  {
  }

  lemma {:induction false} CompoundAllZero(rates: seq<real>)
    requires forall i :: 0 <= i < |rates| ==> rates[i] == 0.0
    ensures Compound(rates) == 1.0
  {
    if |rates| > 0 {
      CompoundAllZero(rates[1..]);
    }
  }

  lemma MulPositive(x: real, y: real)
    requires x > 0.0 && y > 0.0
    ensures x * y > 0.0
  {
  }

  /** Rates above -1 compound to a positive factor. */
  lemma {:induction false} CompoundPositive(rates: seq<real>)
    requires forall i :: 0 <= i < |rates| ==> rates[i] > -1.0
    ensures Compound(rates) > 0.0
  {
    if |rates| > 0 {
      var tail := rates[1..];
      CompoundPositive(tail);
      var h := 1.0 + rates[0];
      var t := Compound(tail);
      assert Compound(rates) == h * t;
      MulPositive(h, t);
    }
  }

  /** Cumulative inflation: product of (1 + rate) minus one, for a non-empty sequence. */
  function CumulativeInflation(rates: seq<real>): (r: Result<real, CalcError>)
    ensures r.Failure? <==> |rates| == 0
    ensures r.Failure? ==> r.error == EmptyRates
  {
    if |rates| == 0 then Failure(EmptyRates) else Success(Compound(rates) - 1.0)
  }

  /** The source's loop: multiply (1 + rate) into an accumulator, left to right. */
  method CumulativeInflationLoop(rates: seq<real>) returns (r: Result<real, CalcError>)
    ensures r == CumulativeInflation(rates)
  {
    if |rates| == 0 {
      return Failure(EmptyRates);
    }
    var cumulative := 1.0;
    var i := 0;
    while i < |rates|
      invariant 0 <= i <= |rates|
      invariant cumulative == Compound(rates[..i])
    {
      assert rates[..i + 1] == rates[..i] + [rates[i]];
      CompoundAppend(rates[..i], [rates[i]]);
      cumulative := cumulative * (1.0 + rates[i]);
      i := i + 1;
    }
    assert rates[..i] == rates;
    return Success(cumulative - 1.0);
  }

  lemma CumulativeInflationPermutation(a: seq<real>, b: seq<real>)
    requires multiset(a) == multiset(b)
    ensures CumulativeInflation(a) == CumulativeInflation(b)
  {
    CompoundPermutation(a, b);
    assert |a| == |multiset(a)| == |multiset(b)| == |b|;
  }

  /** Inflation over consecutive periods compounds: the factors multiply. */
  lemma CumulativeInflationConcat(a: seq<real>, b: seq<real>)
    requires |a| > 0 && |b| > 0
    ensures CumulativeInflation(a + b).Success?
    ensures 1.0 + CumulativeInflation(a + b).value
         == (1.0 + CumulativeInflation(a).value) * (1.0 + CumulativeInflation(b).value)
  {
    CompoundAppend(a, b);
  }

  lemma CumulativeInflationAllZero(rates: seq<real>)
    requires |rates| > 0
    requires forall i :: 0 <= i < |rates| ==> rates[i] == 0.0
    ensures CumulativeInflation(rates) == Success(0.0)
  {
    CompoundAllZero(rates);
  }

  lemma CumulativeInflationSingle(rate: real)
    ensures CumulativeInflation([rate]) == Success(rate)
  {
    assert [rate][1..] == [];
    assert Compound([rate]) == (1.0 + rate) * Compound([]);
  }

  /** Rates all above -1 keep the cumulative result above -1. */
  lemma CumulativeInflationAboveMinusOne(rates: seq<real>)
    requires |rates| > 0
    requires forall i :: 0 <= i < |rates| ==> rates[i] > -1.0
    ensures CumulativeInflation(rates).Success? && CumulativeInflation(rates).value > -1.0
  {
    CompoundPositive(rates);
  }

  /** Real CAGR = (1 + nominal) / (1 + inflation) - 1, rejecting every
      inflation value at or below -1 (where the division is undefined). */
  function RealCagr(nominalCagr: real, cumulativeInflation: real): (r: Result<real, CalcError>)
    ensures r.Failure? <==> cumulativeInflation <= -1.0
    ensures r.Failure? ==> r.error == InflationNotAboveMinusOne
    ensures r.Success? ==> (1.0 + r.value) * (1.0 + cumulativeInflation) == 1.0 + nominalCagr
  {
    if cumulativeInflation <= -1.0 then Failure(InflationNotAboveMinusOne)
    else Success((1.0 + nominalCagr) / (1.0 + cumulativeInflation) - 1.0)
  }

  /** The real CAGR as the source writes it: the guard rejects only values
      below -1, so exactly -1 reaches the division and fails there. */
  function RealCagrAsWritten(nominalCagr: real, cumulativeInflation: real): (r: Result<real, CalcError>)
    ensures cumulativeInflation < -1.0 ==> r == Failure(InflationNotAboveMinusOne)
    ensures cumulativeInflation == -1.0 ==> r == Failure(DivisionByZero)
    ensures cumulativeInflation > -1.0 ==> r == RealCagr(nominalCagr, cumulativeInflation)
  {
    if cumulativeInflation < -1.0 then Failure(InflationNotAboveMinusOne)
    else if 1.0 + cumulativeInflation == 0.0 then Failure(DivisionByZero)
    else Success((1.0 + nominalCagr) / (1.0 + cumulativeInflation) - 1.0)
  }

  /** The as-written guard admits -1, an input whose division by zero it was meant to stop. */
  lemma RealCagrAsWrittenAdmitsMinusOne(nominalCagr: real)
    ensures RealCagrAsWritten(nominalCagr, -1.0) == Failure(DivisionByZero)
    ensures RealCagr(nominalCagr, -1.0) == Failure(InflationNotAboveMinusOne)
  {
  }

  /** With no inflation the real CAGR is the nominal one. */
  lemma RealCagrZeroInflation(nominalCagr: real)
    ensures RealCagr(nominalCagr, 0.0) == Success(nominalCagr)
  {
  }

  /** Inflation above zero pulls the real CAGR below the nominal one, and
      deflation lifts it above, whenever the nominal factor 1 + n is positive. */
  lemma RealCagrBelowNominal(nominalCagr: real, cumulativeInflation: real)
    requires 1.0 + nominalCagr > 0.0 && cumulativeInflation > -1.0
    ensures RealCagr(nominalCagr, cumulativeInflation).value < nominalCagr <==> cumulativeInflation > 0.0
  {
    var f := 1.0 + nominalCagr;
    var d := 1.0 + cumulativeInflation;
    var q := f / d;
    assert q * d == f;
    if cumulativeInflation > 0.0 {
      assert q * d < q * d + q * (d - 1.0);
    } else {
      assert q * d >= q * d + q * (d - 1.0);
    }
  }

  lemma CalculatorExamples(root: (real, nat) -> real)
    requires IsNthRoot(root)
    ensures Cagr(1000.0, 1000.0, 5, root) == Success(0.0)
    ensures Cagr(1000.0, 1100.0, 1, root) == Success(0.1)
    ensures Cagr(1000.0, 0.0, 5, root) == Success(-1.0)
    ensures Cagr(0.0, 1000.0, 5, root) == Failure(StartNotPositive)
    ensures Cagr(1000.0, -500.0, 5, root) == Failure(EndNegative)
    ensures Cagr(1000.0, 1500.0, 0, root) == Failure(YearsNotPositive)
    ensures CumulativeInflation([]) == Failure(EmptyRates)
    ensures CumulativeInflation([0.0, 0.0, 0.0]) == Success(0.0)
    ensures RealCagr(0.08, 0.20) == Success(-0.1)
    ensures RealCagr(0.05, -1.5) == Failure(InflationNotAboveMinusOne)
  {
    CagrSign(1000.0, 1000.0, 5, root);
    CagrOneYear(1000.0, 1100.0, root);
    CumulativeInflationAllZero([0.0, 0.0, 0.0]);
  }
}
