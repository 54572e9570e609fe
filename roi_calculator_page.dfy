/** The helpers of the ROI calculator page: the rupee-string parser applied
    to the university records, the simplified client-side ROI estimate
    (flat 25% tax, no salary growth, no loan) and the rule that picks the
    winner of each row of the A/B comparison table. */
module RoiCalculatorPage {
  import opened Js
  import opened Wrappers
  import Roi

  // ---------------------------------------------------------------------------
  // Characters
  // ---------------------------------------------------------------------------

  /** `\d` of a JavaScript regular expression: the ASCII digits only. */
  predicate IsDigit(c: char)
  {
    '0' <= c <= '9'
  }

  /** A character of the class `[\d,]`: a digit run may contain commas. */
  predicate IsRunChar(c: char)
  {
    IsDigit(c) || c == ','
  }

  /** The rupee sign as it is stored in the page's source: the UTF-8 bytes of
      `₹` read back as three separate characters. Both the parser's
      character class and the formatter's prefix hold these three. */
  const RupeeSign: string := ['\U{201A}', '\U{00C7}', '\U{03C0}']

  /** A character the first `replace` keeps: digits, `,`, the three rupee-sign
      characters, `.` and `-`. Everything else is deleted. */
  predicate IsKept(c: char)
  {
    IsRunChar(c) || c in RupeeSign || c == '.' || c == '-'
  }

  function DigitValue(c: char): nat
    requires IsDigit(c)
  {
    (c as int - '0' as int) as nat
  }

  function DigitChar(d: nat): (c: char)
    requires d < 10
    ensures IsDigit(c) && DigitValue(c) == d
  {
    (d + '0' as int) as char
  }

  // ---------------------------------------------------------------------------
  // parseINR
  // ---------------------------------------------------------------------------

  /** `str.replace(/[^\d,₹.-]/g, '')`: the kept characters, in order. */
  function Filter(s: string): (f: string)
    ensures forall i :: 0 <= i < |f| ==> IsKept(f[i])
    ensures forall c :: c in f ==> c in s
    ensures |f| <= |s|
  {
    if s == [] then []
    else (if IsKept(s[0]) then [s[0]] else []) + Filter(s[1..])
  }

  /** The longest prefix of `s` made of digits and commas. */
  function RunPrefix(s: string): (r: string)
    ensures |r| <= |s| && r == s[..|r|]
    ensures forall i :: 0 <= i < |r| ==> IsRunChar(r[i])
    ensures |r| < |s| ==> !IsRunChar(s[|r|])
  {
    if s == [] || !IsRunChar(s[0]) then []
    else [s[0]] + RunPrefix(s[1..])
  }

  /** `.match(/[\d,]+/)`: the leftmost maximal run of digits and commas, if
      there is one. */
  function FirstRun(s: string): (r: Option<string>)
    ensures r.None? <==> forall i :: 0 <= i < |s| ==> !IsRunChar(s[i])
    ensures r.Some? ==>
              exists i :: 0 <= i < |s| && IsRunChar(s[i])
                          && (forall j :: 0 <= j < i ==> !IsRunChar(s[j]))
                          && r.value == RunPrefix(s[i..])
  {
    if s == [] then None
    else if IsRunChar(s[0]) then
      assert s[0..] == s;
      Some(RunPrefix(s))
    else
      var rest := FirstRun(s[1..]);
      if rest.Some? then
        var i :| 0 <= i < |s[1..]| && IsRunChar(s[1..][i])
                 && (forall j :: 0 <= j < i ==> !IsRunChar(s[1..][j]))
                 && rest.value == RunPrefix(s[1..][i..]);
        assert s[1..][i..] == s[i + 1..];
        assert forall j :: 0 <= j < i + 1 ==> !IsRunChar(s[j]) by {
          forall j | 0 <= j < i + 1 ensures !IsRunChar(s[j]) {
            if j > 0 { assert s[j] == s[1..][j - 1]; }
          }
        }
        rest
      else
        assert forall i :: 0 <= i < |s| ==> !IsRunChar(s[i]) by {
          forall i | 0 <= i < |s| ensures !IsRunChar(s[i]) {
            if i > 0 { assert s[i] == s[1..][i - 1]; }
          }
        }
        None
  }

  /** `.replace(/,/g, '')`. */
  function StripCommas(s: string): (d: string)
    ensures forall i :: 0 <= i < |d| ==> d[i] != ','
    ensures |d| <= |s|
  {
    if s == [] then []
    else (if s[0] == ',' then [] else [s[0]]) + StripCommas(s[1..])
  }

  /** The value of a string of decimal digits, most significant first. */
  function DigitsValue(d: string): nat
    requires forall i :: 0 <= i < |d| ==> IsDigit(d[i])
  {
    if d == [] then 0
    else DigitsValue(d[..|d| - 1]) * 10 + DigitValue(d[|d| - 1])
  }

  /** What `parseINR` yields: a whole number, or NaN from `parseInt("")`. */
  datatype ParsedAmount = Parsed(amount: nat) | NotANumber

  /** `parseINR`: delete the unwanted characters, take the first run of
      digits and commas, drop its commas and read it in base 10; 0 when
      there is no run at all, NaN when the run holds only commas. */
  function ParseINR(str: string): (r: ParsedAmount)
    ensures r == NotANumber <==>
              var run := FirstRun(Filter(str));
              run.Some? && forall i :: 0 <= i < |run.value| ==> run.value[i] == ','
    ensures (forall c :: c in str ==> !IsRunChar(c)) ==> r == Parsed(0)
  {
    match FirstRun(Filter(str))
    case None => Parsed(0)
    case Some(run) =>
      var digits := StripCommas(run);
      StripCommasKeepsDigits(run);
      if digits == [] then
        StripCommasEmpty(run);
        NotANumber
      else
        StripCommasEmpty(run);
        Parsed(DigitsValue(digits))
  }

  /** Stripping commas from a run of digits and commas leaves digits only. */
  lemma {:induction false} StripCommasKeepsDigits(s: string)
    requires forall i :: 0 <= i < |s| ==> IsRunChar(s[i])
    ensures forall i :: 0 <= i < |StripCommas(s)| ==> IsDigit(StripCommas(s)[i])
  {
    if s != [] {
      StripCommasKeepsDigits(s[1..]);
    }
  }

  /** Stripping commas leaves nothing exactly when there were only commas. */
  lemma {:induction false} StripCommasEmpty(s: string)
    ensures StripCommas(s) == [] <==> forall i :: 0 <= i < |s| ==> s[i] == ','
  {
    if s != [] {
      StripCommasEmpty(s[1..]);
      if StripCommas(s) == [] {
        forall i | 0 <= i < |s| ensures s[i] == ',' {
          if i > 0 { assert s[i] == s[1..][i - 1]; }
        }
      }
    }
  }

  // ---------------------------------------------------------------------------
  // Properties of parseINR
  // ---------------------------------------------------------------------------

  lemma {:induction false} FilterAppend(a: string, b: string)
    ensures Filter(a + b) == Filter(a) + Filter(b)
  {
    if a == [] {
      assert a + b == b;
    } else {
      assert (a + b)[1..] == a[1..] + b;
      FilterAppend(a[1..], b);
    }
  }

  /** A deleted character (a space, a letter, a bracket) does not separate
      digit runs: taking it out of the input changes nothing. */
  lemma DeletedCharacterIgnored(before: string, c: char, after: string)
    requires !IsKept(c)
    ensures ParseINR(before + [c] + after) == ParseINR(before + after)
  {
    FilterAppend(before + [c], after);
    FilterAppend(before, [c]);
    FilterAppend(before, after);
    assert Filter([c]) == [];
    assert Filter(before + [c]) == Filter(before);
  }

  lemma {:induction false} FilterKeepsKept(s: string)
    requires forall i :: 0 <= i < |s| ==> IsKept(s[i])
    ensures Filter(s) == s
  {
    if s != [] {
      FilterKeepsKept(s[1..]);
    }
  }

  lemma {:induction false} RunPrefixOfRun(g: string, t: string)
    requires forall i :: 0 <= i < |g| ==> IsRunChar(g[i])
    requires t == [] || !IsRunChar(t[0])
    ensures RunPrefix(g + t) == g
  {
    if g == [] {
      assert g + t == t;
    } else {
      assert (g + t)[1..] == g[1..] + t;
      RunPrefixOfRun(g[1..], t);
    }
  }

  lemma {:induction false} FirstRunSkips(p: string, s: string)
    requires forall i :: 0 <= i < |p| ==> !IsRunChar(p[i])
    ensures FirstRun(p + s) == FirstRun(s)
  {
    if p == [] {
      assert p + s == s;
    } else {
      assert (p + s)[1..] == p[1..] + s;
      FirstRunSkips(p[1..], s);
    }
  }

  lemma FirstRunAtRun(s: string)
    requires s != [] && IsRunChar(s[0])
    ensures FirstRun(s) == Some(RunPrefix(s))
  {
  }

  /** Once the first run is known to be a digit string, that is the value. */
  lemma ParseOfDigitRun(str: string, run: string)
    requires FirstRun(Filter(str)) == Some(run)
    requires run != [] && AllDigits(run)
    ensures ParseINR(str) == Parsed(DigitsValue(run))
  {
    StripCommasOfDigits(run);
  }

  /** A kept character that is not a digit or comma (`.`, `-`, the rupee
      sign) ends the run: "20.5" reads as 20 and "18-25" as 18. */
  lemma KeptSeparatorEndsRun(digits: string, c: char, rest: string)
    requires digits != [] && AllDigits(digits)
    requires IsKept(c) && !IsRunChar(c)
    ensures ParseINR(digits + [c] + rest) == Parsed(DigitsValue(digits))
  {
    var tail := [c] + Filter(rest);
    FilterAppend(digits + [c], rest);
    FilterAppend(digits, [c]);
    FilterKeepsKept(digits);
    assert Filter([c]) == [c];
    var f := Filter(digits + [c] + rest);
    assert f == digits + tail;
    assert f[0] == digits[0];
    FirstRunAtRun(f);
    RunPrefixOfRun(digits, tail);
    ParseOfDigitRun(digits + [c] + rest, digits);
  }

  lemma {:induction false} StripCommasOfDigits(d: string)
    requires forall i :: 0 <= i < |d| ==> d[i] != ','
    ensures StripCommas(d) == d
  {
    if d != [] {
      StripCommasOfDigits(d[1..]);
    }
  }

  /** A space between digit groups is dropped, so "20 000" reads as 20000. */
  lemma SpaceDoesNotSplit(left: string, right: string)
    requires left != [] && AllDigits(left) && AllDigits(right)
    ensures ParseINR(left + " " + right) == Parsed(DigitsValue(left + right))
  {
    DeletedCharacterIgnored(left, ' ', right);
    var d := left + right;
    assert AllDigits(d) by {
      forall i | 0 <= i < |d| ensures IsDigit(d[i]) {
        if i >= |left| { assert d[i] == right[i - |left|]; }
      }
    }
    FilterKeepsKept(d);
    FirstRunAtRun(d);
    RunPrefixOfRun(d, []);
    assert d + [] == d;
    ParseOfDigitRun(d, d);
  }

  /** A run of commas alone reaches `parseInt("")`, which is NaN. */
  lemma CommasOnlyIsNotANumber()
    ensures ParseINR(",,,") == NotANumber
  {
    FilterKeepsKept(",,,");
    FirstRunAtRun(",,,");
    RunPrefixOfRun(",,,", []);
    assert ",,," + [] == ",,,";
  }

  // ---------------------------------------------------------------------------
  // formatINR, the parser's partner
  // ---------------------------------------------------------------------------

  /** The decimal digits of `n`, without leading zeros. */
  function Digits(n: nat): (d: string)
    ensures d != [] && forall i :: 0 <= i < |d| ==> IsDigit(d[i])
  {
    if n < 10 then [DigitChar(n)] else Digits(n / 10) + [DigitChar(n % 10)]
  }

  lemma {:induction false} DigitsValueOfDigits(n: nat)
    ensures DigitsValue(Digits(n)) == n
  {
    if n >= 10 {
      DigitsValueOfDigits(n / 10);
      var d := Digits(n);
      assert d[..|d| - 1] == Digits(n / 10);
    }
  }

  /** Pairs of digits separated by commas, counted from the right. */
  function GroupPairs(p: string): string
  {
    if |p| <= 2 then p else GroupPairs(p[..|p| - 2]) + [','] + p[|p| - 2..]
  }

  /** `toLocaleString('en-IN')` of a whole number's digits: the last three
      digits, then pairs, so 1234567 is "12,34,567". */
  function GroupIndian(d: string): string
  {
    if |d| <= 3 then d else GroupPairs(d[..|d| - 3]) + [','] + d[|d| - 3..]
  }

  /** `formatINR` on a whole number: the rupee sign, a minus sign when the
      number is negative, and the grouped digits. */
  function FormatINR(n: int): string
  {
    RupeeSign + (if n < 0 then "-" else "") + GroupIndian(Digits(if n < 0 then -n else n))
  }

  lemma {:induction false} StripCommasAppend(a: string, b: string)
    ensures StripCommas(a + b) == StripCommas(a) + StripCommas(b)
  {
    if a == [] {
      assert a + b == b;
    } else {
      assert (a + b)[1..] == a[1..] + b;
      StripCommasAppend(a[1..], b);
    }
  }

  predicate AllDigits(d: string)
  {
    forall i :: 0 <= i < |d| ==> IsDigit(d[i])
  }

  predicate AllRun(d: string)
  {
    forall i :: 0 <= i < |d| ==> IsRunChar(d[i])
  }

  /** Digits and commas joined are digits and commas. */
  lemma AllRunAppend(a: string, b: string)
    requires AllRun(a) && AllRun(b)
    ensures AllRun(a + b)
  {
    forall i | 0 <= i < |a + b| ensures IsRunChar((a + b)[i]) {
      if i < |a| { assert (a + b)[i] == a[i]; } else { assert (a + b)[i] == b[i - |a|]; }
    }
  }

  /** Grouped digits, a comma and more digits strip back to the digits. */
  lemma GroupThenTail(grouped: string, head: string, tail: string)
    requires AllRun(grouped) && StripCommas(grouped) == head
    requires AllDigits(tail)
    ensures AllRun(grouped + [','] + tail)
    ensures StripCommas(grouped + [','] + tail) == head + tail
  {
    var withComma := grouped + [','];
    StripCommasAppend(withComma, tail);
    StripCommasAppend(grouped, [',']);
    assert StripCommas([',']) == [];
    assert StripCommas(withComma) == head;
    StripCommasOfDigits(tail);
    AllRunAppend(grouped, [',']);
    AllRunAppend(withComma, tail);
  }

  lemma {:induction false} GroupPairsStrips(p: string)
    requires AllDigits(p)
    ensures AllRun(GroupPairs(p)) && StripCommas(GroupPairs(p)) == p
  {
    if |p| > 2 {
      var head, tail := p[..|p| - 2], p[|p| - 2..];
      GroupPairsStrips(head);
      GroupThenTail(GroupPairs(head), head, tail);
      assert head + tail == p;
    } else {
      StripCommasOfDigits(p);
    }
  }

  lemma GroupIndianStrips(d: string)
    requires AllDigits(d) && d != []
    ensures AllRun(GroupIndian(d)) && GroupIndian(d) != []
    ensures StripCommas(GroupIndian(d)) == d
  {
    if |d| <= 3 {
      StripCommasOfDigits(d);
    } else {
      var head, tail := d[..|d| - 3], d[|d| - 3..];
      GroupPairsStrips(head);
      GroupThenTail(GroupPairs(head), head, tail);
      assert head + tail == d;
    }
  }

  /** Parsing what the page itself displays gives back the magnitude of the
      amount: `parseINR(formatINR(n)) == |n|` for every whole number. */
  lemma FormatThenParse(n: int)
    ensures ParseINR(FormatINR(n)) == Parsed(if n < 0 then -n else n)
  {
    var m: nat := if n < 0 then -n else n;
    var sign: string := if n < 0 then "-" else "";
    var g := GroupIndian(Digits(m));
    GroupIndianStrips(Digits(m));
    var p := RupeeSign + sign;
    assert FormatINR(n) == p + g;
    FilterKeepsKept(p + g);
    FirstRunSkips(p, g);
    assert FirstRun(g) == Some(RunPrefix(g)) by {
      assert IsRunChar(g[0]);
    }
    RunPrefixOfRun(g, []);
    assert g + [] == g;
    DigitsValueOfDigits(m);
  }

  // ---------------------------------------------------------------------------
  // calculateROI of the page
  // ---------------------------------------------------------------------------

  /** The page's result record; the projection entries have the same shape
      as the server engine's. */
  datatype PageROIResult = PageROIResult(
    totalCost: int,
    afterTaxSalary: int,
    breakEvenYears: real,
    fiveYearNetGain: int,
    yearlyProjection: seq<Roi.YearEntry>)

  /** Break-even time to one decimal, or 0 when there is no positive salary. */
  function PageBreakEven(totalCost: int, afterTaxSalary: int): (years: real)
    ensures afterTaxSalary <= 0 ==> years == 0.0
    ensures afterTaxSalary > 0 ==>
              var exact := totalCost as real / afterTaxSalary as real;
              exact - 0.05 < years <= exact + 0.05
    ensures (years * 10.0).Floor as real == years * 10.0
  {
    if afterTaxSalary > 0 then Round(totalCost as real / afterTaxSalary as real * 10.0) as real / 10.0
    else 0.0
  }

  /** `Math.round(salary * 0.75)` on a whole salary, in integer arithmetic. */
  lemma RoundThreeQuarters(salary: int)
    ensures Round(salary as real * 0.75) == (3 * salary + 2) / 4
  {
    var q := (3 * salary + 2) / 4;
    assert 4 * q <= 3 * salary + 2 < 4 * q + 4;
  }

  /** The page's projection, year by year: the same after-tax salary every
      year, added to a running total that starts at minus the total cost. */
  function PageProjection(totalCost: int, afterTaxSalary: int): (p: seq<Roi.YearEntry>)
    ensures |p| == 5
  {
    seq(5, k requires 0 <= k => Roi.YearEntry(k + 1, afterTaxSalary, -totalCost + (k + 1) * afterTaxSalary))
  }

  /** The page's `calculateROI`; the page always leaves the duration at its
      default of two years. */
  method CalculateROI(tuition: int, living: int, salary: int, durationYears: int := 2)
    returns (res: PageROIResult)
    ensures res.totalCost == (tuition + living) * durationYears
    ensures res.afterTaxSalary == (3 * salary + 2) / 4
    ensures res.breakEvenYears == PageBreakEven(res.totalCost, res.afterTaxSalary)
    ensures res.yearlyProjection == PageProjection(res.totalCost, res.afterTaxSalary)
    ensures res.fiveYearNetGain == res.yearlyProjection[4].cumulative
    ensures res.fiveYearNetGain == 5 * res.afterTaxSalary - res.totalCost
  {
    var totalCost := (tuition + living) * durationYears;
    var afterTaxSalary := Round(salary as real * 0.75);
    RoundThreeQuarters(salary);
    var breakEvenYears := PageBreakEven(totalCost, afterTaxSalary);

    var yearlyProjection: seq<Roi.YearEntry> := [];
    var cumulative := -totalCost;
    var year := 1;
    while year <= 5
      invariant 1 <= year <= 6
      invariant |yearlyProjection| == year - 1
      invariant cumulative == -totalCost + (year - 1) * afterTaxSalary
      invariant forall k :: 0 <= k < year - 1 ==>
                  yearlyProjection[k] == Roi.YearEntry(k + 1, afterTaxSalary, -totalCost + (k + 1) * afterTaxSalary)
    {
      var earnings := afterTaxSalary;
      cumulative := cumulative + earnings;
      yearlyProjection := yearlyProjection + [Roi.YearEntry(year, earnings, cumulative)];
      year := year + 1;
    }

    res := PageROIResult(totalCost, afterTaxSalary, breakEvenYears, cumulative, yearlyProjection);
  }

  /** With a positive after-tax salary, the running total of year `k + 1` is
      non-negative exactly when `k + 1` years cover the break-even ratio. */
  lemma CumulativeNonNegativeAfterBreakEven(totalCost: int, afterTaxSalary: int, k: nat)
    requires afterTaxSalary > 0 && k < 5
    ensures PageProjection(totalCost, afterTaxSalary)[k].cumulative >= 0
            <==> (k + 1) as real >= totalCost as real / afterTaxSalary as real
  {
    var c := PageProjection(totalCost, afterTaxSalary)[k].cumulative;
    assert c == (k + 1) * afterTaxSalary - totalCost;
    CoverAlgebra((k + 1) as real, afterTaxSalary as real, totalCost as real, c as real);
  }

  /** `years * a - t` is non-negative exactly when `years` reaches `t / a`. */
  lemma CoverAlgebra(years: real, a: real, t: real, c: real)
    requires a > 0.0 && c == years * a - t
    ensures c >= 0.0 <==> years >= t / a
  {
    var x := t / a;
    assert x * a == t;
    assert c == (years - x) * a;
    if years >= x {
      MulNonneg(years - x, a);
    } else {
      MulPos(x - years, a);
    }
  }

  /** On a whole salary in a country taxed at 25% with no loan, the page's
      after-tax salary and first-year earnings agree with the server engine's. */
  lemma FirstYearAgreesWithServer(input: Roi.ROIInput, salary: int)
    requires input.averageSalary == salary as real && Roi.TaxRate(input.country) == 0.25
    requires !Roi.LoanRequested(input)
    ensures Roi.RoiOf(input).afterTaxSalary == (3 * salary + 2) / 4
    ensures Roi.RoiOf(input).yearlyProjection[0].earnings == (3 * salary + 2) / 4
  {
    RoundThreeQuarters(salary);
    assert Roi.AfterTaxSalary(input) == salary as real * 0.75;
    assert Roi.Loan(input).monthlyPayment == 0.0;
    assert Roi.NetEarnings(Roi.AfterTaxSalary(input), 0.0, 0) == salary as real * 0.75;
  }

  // ---------------------------------------------------------------------------
  // The winner of a comparison row
  // ---------------------------------------------------------------------------

  datatype Winner = A | B | Tie

  function Swapped(w: Winner): Winner
  {
    match w
    case A => B
    case B => A
    case Tie => Tie
  }

  /** The winner column of one row: the smaller value wins a row where lower
      is better, the larger value any other row, and equal values tie. */
  function RowWinner(a: real, b: real, lowerIsBetter: bool): (w: Winner)
    ensures w == Tie <==> a == b
    ensures w == A <==> (if lowerIsBetter then a < b else b < a)
    ensures w == B <==> (if lowerIsBetter then b < a else a < b)
  {
    if lowerIsBetter then (if a < b then A else if b < a then B else Tie)
    else (if a > b then A else if b > a then B else Tie)
  }

  /** Swapping the two universities swaps the winner of a row. */
  lemma RowWinnerSwap(a: real, b: real, lowerIsBetter: bool)
    ensures RowWinner(b, a, lowerIsBetter) == Swapped(RowWinner(a, b, lowerIsBetter))
  {
  }

  /** A lower-is-better row is a higher-is-better row on the negated values. */
  lemma LowerIsBetterIsNegatedHigher(a: real, b: real)
    ensures RowWinner(a, b, true) == RowWinner(-a, -b, false)
  {
  }

  /** The four rows of the comparison summary, in order: total cost (lower
      is better), after-tax salary, break-even (lower is better), five-year
      net gain. */
  function CompareSummary(ra: PageROIResult, rb: PageROIResult): (rows: seq<Winner>)
    ensures |rows| == 4
    ensures rows[0] == A <==> ra.totalCost < rb.totalCost
    ensures rows[1] == A <==> ra.afterTaxSalary > rb.afterTaxSalary
    ensures rows[2] == A <==> ra.breakEvenYears < rb.breakEvenYears
    ensures rows[3] == A <==> ra.fiveYearNetGain > rb.fiveYearNetGain
  {
    [ RowWinner(ra.totalCost as real, rb.totalCost as real, true),
      RowWinner(ra.afterTaxSalary as real, rb.afterTaxSalary as real, false),
      RowWinner(ra.breakEvenYears, rb.breakEvenYears, true),
      RowWinner(ra.fiveYearNetGain as real, rb.fiveYearNetGain as real, false) ]
  }

  /** Swapping the two universities swaps the winner of every row. */
  lemma CompareSummarySwap(ra: PageROIResult, rb: PageROIResult)
    ensures forall i :: 0 <= i < 4 ==> CompareSummary(rb, ra)[i] == Swapped(CompareSummary(ra, rb)[i])
  {
    RowWinnerSwap(ra.totalCost as real, rb.totalCost as real, true);
    RowWinnerSwap(ra.afterTaxSalary as real, rb.afterTaxSalary as real, false);
    RowWinnerSwap(ra.breakEvenYears, rb.breakEvenYears, true);
    RowWinnerSwap(ra.fiveYearNetGain as real, rb.fiveYearNetGain as real, false);
  }
}
