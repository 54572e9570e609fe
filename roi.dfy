/** The server-side ROI engine: cost of study, after-tax salary, an optional
    fixed-payment loan, break-even time and a five-year projection with 3%
    yearly salary growth. */
module Roi {
  import opened Js
  import opened Wrappers
  import opened Amortization

  datatype ROIInput = ROIInput(
    tuitionFee: real,
    livingCost: real,
    durationYears: real,
    averageSalary: real,
    country: string,
    loanAmount: Option<real>,
    loanRate: Option<real>,       // annual percent
    loanTermYears: Option<int>)

  datatype YearEntry = YearEntry(year: int, earnings: int, cumulative: int)

  datatype ROIResult = ROIResult(
    totalCost: int,
    annualCost: int,
    afterTaxSalary: int,
    breakEvenYears: real,
    fiveYearNetGain: int,
    fiveYearEarnings: int,
    monthlyLoanPayment: int,
    totalLoanInterest: int,
    yearlyProjection: seq<YearEntry>)

  // ---------------------------------------------------------------------------
  // Cost and salary
  // ---------------------------------------------------------------------------

  const TaxRates: map<string, real> := map[
    "USA" := 0.25, "UK" := 0.30, "Canada" := 0.27, "Australia" := 0.28,
    "Germany" := 0.35, "Singapore" := 0.15, "Netherlands" := 0.37,
    "Ireland" := 0.20, "New Zealand" := 0.28]

  /** Income-tax rate of the destination country; 25% for any country not in the table. */
  function TaxRate(country: string): (rate: real)
    ensures 0.15 <= rate <= 0.37
    ensures country !in TaxRates ==> rate == 0.25
  {
    if country in TaxRates then TaxRates[country] else 0.25
  }

  function AnnualCost(input: ROIInput): real
  {
    input.tuitionFee + input.livingCost
  }

  function TotalCost(input: ROIInput): real
  {
    AnnualCost(input) * input.durationYears
  }

  function AfterTaxSalary(input: ROIInput): (salary: real)
    ensures input.averageSalary >= 0.0 ==> 0.63 * input.averageSalary <= salary <= 0.85 * input.averageSalary
  {
    input.averageSalary * (1.0 - TaxRate(input.country))
  }

  // ---------------------------------------------------------------------------
  // Loan
  // ---------------------------------------------------------------------------

  /** JavaScript truthiness of an optional number: present and not zero. */
  predicate Truthy(x: Option<real>)
  {
    x.Some? && x.value != 0.0
  }

  /** A loan is costed only when amount, rate and term are all truthy. */
  predicate LoanRequested(input: ROIInput)
  {
    Truthy(input.loanAmount) && Truthy(input.loanRate)
    && input.loanTermYears.Some? && input.loanTermYears.value != 0
  }

  /** The fixed monthly payment that repays `principal` over `n` months at
      monthly rate `r`. */
  function AmortizedPayment(principal: real, r: real, n: int): real
    requires r > 0.0 && n != 0
  {
    var growth := Pow(1.0 + r, n);
    principal * (r * growth) / (growth - 1.0)
  }

  datatype LoanTerms = LoanTerms(monthlyPayment: real, totalInterest: real)

  /** Monthly payment and total interest of the loan described by the input. */
  function Loan(input: ROIInput): (loan: LoanTerms)
    ensures !LoanRequested(input) ==> loan == LoanTerms(0.0, 0.0)
    ensures input.loanRate == Some(0.0) ==> loan == LoanTerms(0.0, 0.0)
    ensures LoanRequested(input) && input.loanRate.value < 0.0 ==>
              loan == LoanTerms(input.loanAmount.value / (input.loanTermYears.value * 12) as real, 0.0)
    ensures LoanRequested(input) && input.loanRate.value > 0.0 ==>
              var n := input.loanTermYears.value * 12;
              loan.totalInterest == loan.monthlyPayment * n as real - input.loanAmount.value
    ensures LoanRequested(input) && input.loanRate.value > 0.0 && input.loanTermYears.value > 0 ==>
              Balance(input.loanAmount.value, input.loanRate.value / 100.0 / 12.0,
                      loan.monthlyPayment, input.loanTermYears.value * 12) == 0.0
  {
    if LoanRequested(input) then
      var r := input.loanRate.value / 100.0 / 12.0;
      var n := input.loanTermYears.value * 12;
      if r > 0.0 then
        var monthly := AmortizedPayment(input.loanAmount.value, r, n);
        assert n > 0 ==> Balance(input.loanAmount.value, r, monthly, n) == 0.0 by {
          if n > 0 { AmortizationRepaysLoan(input.loanAmount.value, r, n); }
        }
        LoanTerms(monthly, monthly * n as real - input.loanAmount.value)
      else
        LoanTerms(input.loanAmount.value / n as real, 0.0)
    else
      LoanTerms(0.0, 0.0)
  }

  lemma {:induction false} GrowthIsPower(r: real, k: nat)
    ensures Growth(r, k) == PowNat(1.0 + r, k)
  {
    if k > 0 {
      GrowthIsPower(r, k - 1);
    }
  }

  /** The amortized payment repays the loan exactly: after `n` payments the
      balance is zero. */
  lemma AmortizationRepaysLoan(principal: real, r: real, n: nat)
    requires r > 0.0 && n > 0
    ensures Balance(principal, r, AmortizedPayment(principal, r, n), n) == 0.0
  {
    var g := PowNat(1.0 + r, n);
    var m := AmortizedPayment(principal, r, n);
    assert g > 1.0;
    assert m * (g - 1.0) == principal * (r * g);
    BalanceClosedForm(principal, r, m, n);
    GrowthIsPower(r, n);
    assert Balance(principal, r, m, n) * r == 0.0;
  }

  /** `b^n - 1 <= n (b - 1) b^n` for `b >= 1`. */
  lemma {:induction false} PowNatGap(b: real, n: nat)
    requires b >= 1.0
    ensures PowNat(b, n) - 1.0 <= n as real * (b - 1.0) * PowNat(b, n)
  {
    if n > 0 {
      PowNatGap(b, n - 1);
      GapAlgebra(b, PowNat(b, n - 1), PowNat(b, n), (n - 1) as real, n as real);
    }
  }

  /** One step of `PowNatGap`, on plain reals: `g' = b g` and `k' = k + 1`. */
  lemma GapAlgebra(b: real, g: real, g': real, k: real, k': real)
    requires b >= 1.0 && g >= 1.0 && k >= 0.0
    requires g - 1.0 <= k * (b - 1.0) * g
    requires g' == b * g && k' == k + 1.0
    ensures g' - 1.0 <= k' * (b - 1.0) * g'
  {
    // b g - 1 = b (g - 1) + (b - 1) <= b k (b - 1) g + (b - 1) b g
    MulNonneg(b, k * (b - 1.0) * g - (g - 1.0));
    MulNonneg(b - 1.0, b * g - 1.0);
    assert b * g - 1.0 <= b * (k * (b - 1.0) * g) + (b - 1.0) * (b * g);
  }

  /** The algebra behind the next lemma, with the power named `g`. */
  lemma InterestAlgebra(principal: real, r: real, n: real, g: real, m: real)
    requires principal >= 0.0 && g > 1.0
    requires g - 1.0 <= n * r * g
    requires m * (g - 1.0) == principal * (r * g)
    ensures m * n - principal >= 0.0
  {
    var x := m * n - principal;
    MulNonneg(principal, n * r * g - (g - 1.0));
    assert x * (g - 1.0) == n * (m * (g - 1.0)) - principal * (g - 1.0);
    assert n * (m * (g - 1.0)) == n * (principal * (r * g));
    assert x * (g - 1.0) == principal * (n * r * g - (g - 1.0));
    if x < 0.0 {
      MulPos(-x, g - 1.0);
    }
  }

  /** With a positive rate, the interest paid on a non-negative principal is
      never negative: the payments add up to at least the principal. */
  lemma AmortizedInterestNonNegative(principal: real, r: real, n: nat)
    requires principal >= 0.0 && r > 0.0 && n > 0
    ensures AmortizedPayment(principal, r, n) * n as real - principal >= 0.0
  {
    var g := PowNat(1.0 + r, n);
    var m := AmortizedPayment(principal, r, n);
    PowNatGap(1.0 + r, n);
    assert m * (g - 1.0) == principal * (r * g);
    InterestAlgebra(principal, r, n as real, g, m);
  }

  // ---------------------------------------------------------------------------
  // Break-even and projection
  // ---------------------------------------------------------------------------

  /** Years to earn back the total cost from yearly net income, to one decimal;
      the sentinel 99 when there is no positive net income. */
  function BreakEvenYears(totalCost: real, annualNetIncome: real): (years: real)
    ensures annualNetIncome <= 0.0 ==> years == 99.0
    ensures annualNetIncome > 0.0 ==>
              totalCost / annualNetIncome - 0.05 < years <= totalCost / annualNetIncome + 0.05
    ensures annualNetIncome > 0.0 ==> (years * 10.0).Floor as real == years * 10.0
  {
    if annualNetIncome > 0.0 then Round(totalCost / annualNetIncome * 10.0) as real / 10.0
    else 99.0
  }

  /** The after-tax salary of year `k + 1`: the first year's salary grown by
      3% once per year before it. */
  function GrownSalary(afterTaxSalary: real, k: nat): real
  {
    if k == 0 then afterTaxSalary else GrownSalary(afterTaxSalary, k - 1) * 1.03
  }

  /** The grown salary is the first year's salary times `1.03^k`. */
  lemma {:induction false} GrownSalaryIsPower(afterTaxSalary: real, k: nat)
    ensures GrownSalary(afterTaxSalary, k) == afterTaxSalary * PowNat(1.03, k)
  {
    if k > 0 {
      GrownSalaryIsPower(afterTaxSalary, k - 1);
      assert PowNat(1.03, k) == 1.03 * PowNat(1.03, k - 1);
    }
  }

  /** Unrounded net earnings of year `k + 1`: that year's salary less a year
      of loan payments. */
  function NetEarnings(afterTaxSalary: real, annualLoanPayment: real, k: nat): real
  {
    GrownSalary(afterTaxSalary, k) - annualLoanPayment
  }

  /** Unrounded net earnings of the first `k` years together. */
  function CumulativeNet(afterTaxSalary: real, annualLoanPayment: real, k: nat): real
  {
    if k == 0 then 0.0
    else CumulativeNet(afterTaxSalary, annualLoanPayment, k - 1)
         + NetEarnings(afterTaxSalary, annualLoanPayment, k - 1)
  }

  /** Closed form of the running sum: a geometric series less `k` years of
      loan payments. */
  lemma {:induction false} CumulativeNetClosedForm(afterTaxSalary: real, annualLoanPayment: real, k: nat)
    ensures CumulativeNet(afterTaxSalary, annualLoanPayment, k) * 0.03
         == GrownSalary(afterTaxSalary, k) - afterTaxSalary - 0.03 * k as real * annualLoanPayment
  {
    if k > 0 {
      CumulativeNetClosedForm(afterTaxSalary, annualLoanPayment, k - 1);
      var c := CumulativeNet(afterTaxSalary, annualLoanPayment, k - 1);
      var g := GrownSalary(afterTaxSalary, k - 1);
      var l := annualLoanPayment;
      assert CumulativeNet(afterTaxSalary, annualLoanPayment, k) == c + g - l;
      assert GrownSalary(afterTaxSalary, k) == g * 1.03;
      assert c * 0.03 == g - afterTaxSalary - 0.03 * (k - 1) as real * l;
      assert 0.03 * k as real * l == 0.03 * (k - 1) as real * l + 0.03 * l;
      assert (c + g - l) * 0.03 == c * 0.03 + g * 0.03 - l * 0.03;
    }
  }

  /** Projection entry for year `k + 1`: rounded earnings, and the rounded
      running total that started at minus the total cost. */
  function ProjectedYear(afterTaxSalary: real, annualLoanPayment: real, totalCost: real, k: nat): YearEntry
  {
    YearEntry(
      k + 1,
      Round(NetEarnings(afterTaxSalary, annualLoanPayment, k)),
      Round(-totalCost + CumulativeNet(afterTaxSalary, annualLoanPayment, k + 1)))
  }

  function Projection(afterTaxSalary: real, annualLoanPayment: real, totalCost: real): (p: seq<YearEntry>)
    ensures |p| == 5
    ensures forall k :: 0 <= k < 5 ==> p[k].year == k + 1
  {
    seq(5, k requires 0 <= k => ProjectedYear(afterTaxSalary, annualLoanPayment, totalCost, k))
  }

  /** `reduce((sum, y) => sum + y.earnings, 0)`. */
  function SumEarnings(p: seq<YearEntry>): int
  {
    if p == [] then 0 else SumEarnings(p[..|p| - 1]) + p[|p| - 1].earnings
  }

  /** The whole result, field by field. */
  function RoiOf(input: ROIInput): ROIResult
  {
    var totalCost := TotalCost(input);
    var afterTaxSalary := AfterTaxSalary(input);
    var loan := Loan(input);
    var annualLoanPayment := loan.monthlyPayment * 12.0;
    var projection := Projection(afterTaxSalary, annualLoanPayment, totalCost);
    var fiveYearEarnings := SumEarnings(projection);
    ROIResult(
      Round(totalCost),
      Round(AnnualCost(input)),
      Round(afterTaxSalary),
      BreakEvenYears(totalCost, afterTaxSalary - annualLoanPayment),
      Round(fiveYearEarnings as real - totalCost),
      Round(fiveYearEarnings as real),
      Round(loan.monthlyPayment),
      Round(loan.totalInterest),
      projection)
  }

  /** The loan block of `calculateROI`: both figures start at zero and are
      reassigned only when a loan is requested. */
  method ComputeLoan(input: ROIInput) returns (monthlyLoanPayment: real, totalLoanInterest: real)
    ensures LoanTerms(monthlyLoanPayment, totalLoanInterest) == Loan(input)
  {
    monthlyLoanPayment := 0.0;
    totalLoanInterest := 0.0;
    if LoanRequested(input) {
      var r := input.loanRate.value / 100.0 / 12.0;
      var n := input.loanTermYears.value * 12;
      if r > 0.0 {
        monthlyLoanPayment := AmortizedPayment(input.loanAmount.value, r, n);
        totalLoanInterest := monthlyLoanPayment * n as real - input.loanAmount.value;
      } else {
        monthlyLoanPayment := input.loanAmount.value / n as real;
      }
    }
  }

  /** One pass of the projection loop: from the salary of year `k + 1` and the
      running total of the first `k` years, the entry it pushes is the
      projected one and the new running total covers `k + 1` years. */
  lemma ProjectionStep(afterTaxSalary: real, annualLoanPayment: real, totalCost: real, k: nat,
                       salary: real, cumulative: real)
    requires salary == GrownSalary(afterTaxSalary, k)
    requires cumulative == -totalCost + CumulativeNet(afterTaxSalary, annualLoanPayment, k)
    ensures cumulative + (salary - annualLoanPayment)
         == -totalCost + CumulativeNet(afterTaxSalary, annualLoanPayment, k + 1)
    ensures YearEntry(k + 1, Round(salary - annualLoanPayment),
                      Round(cumulative + (salary - annualLoanPayment)))
         == ProjectedYear(afterTaxSalary, annualLoanPayment, totalCost, k)
  {
  }

  /** The projection loop of `calculateROI`: five years, each adding the
      year's net earnings to an unrounded running total that starts at minus
      the total cost, then growing the salary by 3%. */
  method ProjectYears(afterTaxSalary: real, annualLoanPayment: real, totalCost: real)
    returns (yearlyProjection: seq<YearEntry>)
    ensures yearlyProjection == Projection(afterTaxSalary, annualLoanPayment, totalCost)
  {
    yearlyProjection := [];
    var cumulative := -totalCost;
    var salary := afterTaxSalary;
    var year := 1;
    while year <= 5
      invariant 1 <= year <= 6
      invariant |yearlyProjection| == year - 1
      invariant salary == GrownSalary(afterTaxSalary, year - 1)
      invariant cumulative == -totalCost + CumulativeNet(afterTaxSalary, annualLoanPayment, year - 1)
      invariant forall k :: 0 <= k < year - 1 ==>
                  yearlyProjection[k] == ProjectedYear(afterTaxSalary, annualLoanPayment, totalCost, k)
    {
      ProjectionStep(afterTaxSalary, annualLoanPayment, totalCost, year - 1, salary, cumulative);
      var netEarnings := salary - annualLoanPayment;
      cumulative := cumulative + netEarnings;
      yearlyProjection := yearlyProjection + [YearEntry(year, Round(netEarnings), Round(cumulative))];
      salary := salary * 1.03;
      year := year + 1;
    }
  }

  /** `calculateROI`. */
  method CalculateROI(input: ROIInput) returns (res: ROIResult)
    ensures res == RoiOf(input)
  {
    var totalCost := TotalCost(input);
    var annualCost := AnnualCost(input);
    var afterTaxSalary := AfterTaxSalary(input);

    var monthlyLoanPayment, totalLoanInterest := ComputeLoan(input);
    var annualLoanPayment := monthlyLoanPayment * 12.0;
    var annualNetIncome := afterTaxSalary - annualLoanPayment;
    var breakEvenYears := BreakEvenYears(totalCost, annualNetIncome);

    var yearlyProjection := ProjectYears(afterTaxSalary, annualLoanPayment, totalCost);
    var fiveYearEarnings := SumEarnings(yearlyProjection);
    var fiveYearNetGain := fiveYearEarnings as real - totalCost;

    res := ROIResult(
      Round(totalCost),
      Round(annualCost),
      Round(afterTaxSalary),
      breakEvenYears,
      Round(fiveYearNetGain),
      Round(fiveYearEarnings as real),
      Round(monthlyLoanPayment),
      Round(totalLoanInterest),
      yearlyProjection);
  }

  datatype Comparison = Comparison(universityA: ROIResult, universityB: ROIResult)

  /** `compareROI`: the two results side by side, each from its own input only. */
  method CompareROI(a: ROIInput, b: ROIInput) returns (c: Comparison)
    ensures c.universityA == RoiOf(a)
    ensures c.universityB == RoiOf(b)
  {
    var resultA := CalculateROI(a);
    var resultB := CalculateROI(b);
    c := Comparison(resultA, resultB);
  }

  // ---------------------------------------------------------------------------
  // Properties of the result
  // ---------------------------------------------------------------------------

  lemma {:induction false} GrownSalaryNonDecreasing(afterTaxSalary: real, k: nat)
    requires afterTaxSalary >= 0.0
    ensures 0.0 <= GrownSalary(afterTaxSalary, k) <= GrownSalary(afterTaxSalary, k + 1)
  {
    if k > 0 {
      GrownSalaryNonDecreasing(afterTaxSalary, k - 1);
    }
  }

  /** With a non-negative after-tax salary, yearly earnings never fall. */
  lemma EarningsNonDecreasing(input: ROIInput, k: nat)
    requires AfterTaxSalary(input) >= 0.0 && k < 4
    ensures RoiOf(input).yearlyProjection[k].earnings <= RoiOf(input).yearlyProjection[k + 1].earnings
  {
    var a := AfterTaxSalary(input);
    var l := Loan(input).monthlyPayment * 12.0;
    GrownSalaryNonDecreasing(a, k);
    RoundMonotone(NetEarnings(a, l, k), NetEarnings(a, l, k + 1));
  }

  /** The sum of the first `j` rounded earnings stays within `j / 2` of the
      unrounded running total. */
  lemma {:induction false} RoundedSumDrift(a: real, l: real, t: real, j: nat)
    requires j <= 5
    ensures var s := SumEarnings(Projection(a, l, t)[..j]) as real;
            -0.5 * j as real <= s - CumulativeNet(a, l, j) <= 0.5 * j as real
  {
    if j > 0 {
      var p := Projection(a, l, t);
      RoundedSumDrift(a, l, t, j - 1);
      assert p[..j][..j - 1] == p[..j - 1];
      assert SumEarnings(p[..j]) == SumEarnings(p[..j - 1]) + p[j - 1].earnings;
      assert p[j - 1].earnings == Round(NetEarnings(a, l, j - 1));
      assert CumulativeNet(a, l, j) == CumulativeNet(a, l, j - 1) + NetEarnings(a, l, j - 1);
      var prev := SumEarnings(p[..j - 1]) as real - CumulativeNet(a, l, j - 1);
      assert -0.5 * (j - 1) as real <= prev <= 0.5 * (j - 1) as real;
      var e := p[j - 1].earnings as real - NetEarnings(a, l, j - 1);
      assert -0.5 < e <= 0.5;
      assert SumEarnings(p[..j]) as real - CumulativeNet(a, l, j) == prev + e;
    } else {
      assert Projection(a, l, t)[..0] == [];
    }
  }

  /** The five-year net gain (from rounded earnings) and the last cumulative
      figure (from the unrounded running total) differ by at most 3. */
  lemma NetGainNearLastCumulative(input: ROIInput)
    ensures -3 <= RoiOf(input).fiveYearNetGain - RoiOf(input).yearlyProjection[4].cumulative <= 3
  {
    var a, t := AfterTaxSalary(input), TotalCost(input);
    var l := Loan(input).monthlyPayment * 12.0;
    var p := Projection(a, l, t);
    RoundedSumDrift(a, l, t, 5);
    assert p[..5] == p;
  }

  /** An after-tax salary between 0.4 and 0.44 stays below 0.5 over five
      years of 3% growth, so every yearly earning rounds to 0, while the
      running total lands between 2.12 and 2.34. */
  lemma SmallSalaryProjection(a: real)
    requires 0.4 <= a <= 0.44
    ensures var p := Projection(a, 0.0, 0.0);
            (forall k :: 0 <= k < 5 ==> p[k].earnings == 0) && p[4].cumulative == 2
  {
    assert GrownSalary(a, 1) == 1.03 * a;
    assert GrownSalary(a, 2) == 1.0609 * a;
    assert GrownSalary(a, 3) == 1.092727 * a;
    assert GrownSalary(a, 4) == 1.12550881 * a;
    assert CumulativeNet(a, 0.0, 1) == a;
    assert CumulativeNet(a, 0.0, 2) == 2.03 * a;
    assert CumulativeNet(a, 0.0, 3) == 3.0909 * a;
    assert CumulativeNet(a, 0.0, 4) == 4.183627 * a;
    assert CumulativeNet(a, 0.0, 5) == 5.30913581 * a;
  }

  lemma SumOfZeroEarnings(p: seq<YearEntry>)
    requires forall k :: 0 <= k < |p| ==> p[k].earnings == 0
    ensures SumEarnings(p) == 0
  {
    if p != [] {
      SumOfZeroEarnings(p[..|p| - 1]);
    }
  }

  /** They can differ: with nothing to pay for, no loan and an after-tax
      salary between 0.4 and 0.44 (an average salary of 8/15 in the USA, say),
      every rounded yearly earning is 0, so the five-year net gain is 0, while
      the running total reaches 2. */
  lemma NetGainCanDifferFromLastCumulative(input: ROIInput)
    requires input.tuitionFee == 0.0 && input.livingCost == 0.0 && input.loanAmount == None
    requires 0.4 <= AfterTaxSalary(input) <= 0.44
    ensures RoiOf(input).fiveYearNetGain == 0 && RoiOf(input).yearlyProjection[4].cumulative == 2
  {
    var a := AfterTaxSalary(input);
    assert Loan(input).monthlyPayment == 0.0;
    assert TotalCost(input) == 0.0;
    var p := Projection(a, 0.0, 0.0);
    assert RoiOf(input).yearlyProjection == p;
    SmallSalaryProjection(a);
    SumOfZeroEarnings(p);
  }

  /** Tuition 20000, living 15000 for two years, salary 60000 in the USA, no
      loan: total cost 70000, after-tax salary 45000, break-even 1.6 years. */
  lemma UsaScenario()
    ensures var r := RoiOf(ROIInput(20000.0, 15000.0, 2.0, 60000.0, "USA", None, None, None));
            r.totalCost == 70000 && r.afterTaxSalary == 45000 && r.breakEvenYears == 1.6
            && r.monthlyLoanPayment == 0 && r.totalLoanInterest == 0
            && r.yearlyProjection[0].earnings == 45000
  {
    var input := ROIInput(20000.0, 15000.0, 2.0, 60000.0, "USA", None, None, None);
    assert TaxRate("USA") == 0.25;
    assert Round(70000.0 / 45000.0 * 10.0) == 16;
  }

  // ---------------------------------------------------------------------------
  // The tax lookup as written, over a plain JavaScript object
  // ---------------------------------------------------------------------------

  /** `average_salary * (1 - (TAX_RATES[country] || 0.25))` read literally: an
      inherited member of the object literal is a truthy non-number, so the
      subtraction yields NaN. */
  function AfterTaxSalaryAsWritten(averageSalary: real, country: string): (salary: Number)
    ensures country !in InheritedKeys ==> salary.Finite?
    ensures salary == NaN <==> country in InheritedKeys
  {
    if country in TaxRates then Finite(averageSalary * (1.0 - TaxRates[country]))
    else if country in InheritedKeys then NaN
    else Finite(averageSalary * (1.0 - 0.25))
  }

  /** On every country but the inherited keys, the literal reading agrees with
      the model's own-key lookup. */
  lemma AfterTaxSalaryAsWrittenAgrees(input: ROIInput)
    requires input.country !in InheritedKeys
    ensures AfterTaxSalaryAsWritten(input.averageSalary, input.country) == Finite(AfterTaxSalary(input))
  {
  }

  /** The country "constructor" is taxed at the 25% default under the intended
      lookup, but yields a NaN after-tax salary as written. */
  lemma InheritedCountryGivesNaN()
    ensures AfterTaxSalaryAsWritten(60000.0, "constructor") == NaN
    ensures AfterTaxSalary(ROIInput(0.0, 0.0, 2.0, 60000.0, "constructor", None, None, None)) == 45000.0
  {
  }
}
