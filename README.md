# Study-abroad decision engines, modelled in Dafny

This project models the computational core of a study-abroad planning site:

- **Match score** (`lib/scoring.ts`): a 0–100 fit score of a university for a
  student. It blends stepped bracket scores: 40% academic (CGPA and IELTS
  margins), 30% budget (annual cost against the student's budget), 20% return
  on investment (years of salary one year of cost amounts to) and 10% visa
  risk. It also returns a diagnostic breakdown.
- **ROI engine** (`lib/roi.ts`): total and annual cost, after-tax salary from
  a nine-country tax table, an optional fixed-payment loan, break-even time
  with the sentinel 99, and a five-year projection with 3% yearly salary
  growth. `compareROI` puts two of these results side by side.
- **ROI calculator page helpers** (`src/pages/ROICalculator.tsx`):
  - `parseINR`, which reads rupee amounts such as "₹20,00,000" out of the
    university records;
  - the page's own simplified ROI estimate (flat 25% tax, no growth, 0 instead
    of 99 when there is no salary);
  - the rule that picks the winner of each row of the A/B comparison table.
- **Input validation** (`lib/validation.ts`): the HTML-escaping
  `sanitizeInput` and the upload check `validateFileUpload`.

Money and scores are exact `real`s. JavaScript's `Math.round` is
`Floor(x + 0.5)` (`Js.Round`), and `Math.pow` with a whole exponent is
repeated multiplication (`Js.Pow`).

Each score is assigned once by an if/else-if chain, and the parsing code is a
chain of expressions, so both are modelled as functions. The two `calculateROI` functions reassign variables inside a loop.
They are modelled as methods with `while` loops, and each method is proved
equal to a closed-form specification function (`Roi.RoiOf`,
`RoiCalculatorPage.PageProjection`). The properties are proved about those
functions.

Modules: `Js` (rounding, powers, the JavaScript pieces needed), `Wrappers`
(`Option`), `Amortization` (the month-by-month balance of a fixed-payment
loan, against which the loan formula is checked), `Scoring`, `Roi`,
`RoiCalculatorPage`, `Validation`.

Three properties a reader might expect do not hold in the code, and the model
states or proves how they fail:

- The server's five-year net gain is **not** always the last cumulative
  figure of the projection. The net gain adds up rounded yearly earnings,
  while the cumulative figure rounds an unrounded running total.
  `Roi.NetGainNearLastCumulative` bounds the gap by 3, and
  `Roi.NetGainCanDifferFromLastCumulative` gives inputs where the gap is 2.
  (The page's simplified estimate does have them equal:
  `RoiCalculatorPage.CalculateROI`.)
- The ROI score is monotone in the salary only among positive salaries. A
  salary of 0 falls back to 50000, so raising it from 0 to 1 can lower the
  score: `Scoring.SalaryFallbackNotMonotone`.
- A loan at a 0% rate is not split into equal monthly payments: it gives no
  payment at all. The guard at lib/roi.ts:48 treats a rate of 0 as false, so
  the equal-split branch at lib/roi.ts:54-56 runs only for negative rates.
  `Roi.Loan` states both cases.

## Model

| member | source | states |
|---|---|---|
| Scoring.CgpaScore | lib/scoring.ts:36-42 | the CGPA score is one of the five bracket values 100, 85, 70, 50, 30 |
| Scoring.CgpaScoreIsBracketed | lib/scoring.ts:37-42 | the CGPA score is the first bracket of the table (≥0.5→100, ≥0→85, ≥−0.2→70, ≥−0.5→50, else 30) that the margin reaches |
| Scoring.CgpaScoreMonotone | lib/scoring.ts:37-42 | raising the student's CGPA never lowers the CGPA score |
| Scoring.IeltsScore | lib/scoring.ts:44-49 | the IELTS score lies between 30 and 100 |
| Scoring.IeltsScoreIsBracketed | lib/scoring.ts:45-49 | the IELTS score is the first bracket reached of ≥1.0→100, ≥0→85, ≥−0.5→60, else 30 |
| Scoring.IeltsScoreMonotone | lib/scoring.ts:45-49 | raising the IELTS band never lowers the IELTS score |
| Scoring.Academic | lib/scoring.ts:51 | the rounded half-and-half blend lies between the two scores, hence in 30..100 |
| Scoring.CostRatio | lib/scoring.ts:54-55 | the annual cost (tuition plus living) over the budget; its properties are carried by `BudgetScoreMonotoneInBudget` and the costFit clauses of `CalculateMatchScore` |
| Scoring.BudgetScore | lib/scoring.ts:56-60 | the budget score lies between 30 and 100 |
| Scoring.BudgetScoreIsBracketed | lib/scoring.ts:54-60 | the budget score is the first bracket the cost ratio stays within: ≤0.8→100, ≤1.0→85, ≤1.2→60, else 30 |
| Scoring.BudgetScoreMonotoneInBudget | lib/scoring.ts:54-60 | for a positive budget, a larger budget never lowers the budget score |
| Scoring.SalaryOrDefault | lib/scoring.ts:63 | `average_salary \|\| 50000` is never zero and keeps any non-zero salary |
| Scoring.BreakEvenYears | lib/scoring.ts:63 | the annual cost over the salary, with 50000 in place of a zero salary; its properties are carried by `RoiScoreMonotoneInSalary` and `SalaryFallbackNotMonotone` |
| Scoring.RoiScore | lib/scoring.ts:64-68 | the ROI score lies between 40 and 100 |
| Scoring.RoiScoreIsBracketed | lib/scoring.ts:63-68 | the ROI score is the first bracket the break-even ratio stays within: ≤1→100, ≤2→85, ≤3→65, else 40 |
| Scoring.RoiScoreMonotoneInSalary | lib/scoring.ts:63-68 | among positive salaries, a higher salary never lowers the ROI score |
| Scoring.SalaryFallbackNotMonotone | lib/scoring.ts:63-68 | the fallback breaks monotonicity: salary 0 scores 100 while salary 1 scores 40 for a cost of 35000 |
| Scoring.VisaScore | lib/scoring.ts:71-76 | the visa score is 100, 70 or 40, and 70 for any difficulty outside low/medium/high |
| Scoring.Overall | lib/scoring.ts:79-81 | for sub-scores in their ranges the weighted overall score always lies in 33..100 |
| Scoring.OverallMonotone | lib/scoring.ts:79-81 | raising any sub-score never lowers the overall score |
| Scoring.CalculateMatchScore | lib/scoring.ts:34-97 | sub-score ranges; academic, budget, ROI and visa scores are the scorers applied to the margins, the cost ratio, the break-even ratio and the difficulty (so an unknown difficulty scores 70); overall is the rounded 40/30/20/10 blend; breakdown echoes the CGPA and IELTS scores and the visa difficulty; costFit is the rounded percentage of budget left over, ≥ 0 when cost ≤ budget and ≤ 0 when cost > budget; breakEvenYears has one decimal and lies within 0.05 of the ratio, so it is the ratio rounded to one decimal |
| Scoring.MatchScoreMonotoneInCgpa | lib/scoring.ts:34-97 | a higher CGPA never lowers the academic or the overall score |
| Scoring.MatchScoreMonotoneInBudget | lib/scoring.ts:34-97 | a larger positive budget never lowers the budget or the overall score |
| Scoring.MatchScoreMonotoneInSalary | lib/scoring.ts:34-97 | among positive salaries, a higher salary never lowers the ROI or the overall score |
| Scoring.BracketBoundaryScenario | lib/scoring.ts:34-97 | a student 0.3 above the CGPA bar and 0.5 above the IELTS bar scores 85/85, overall 94, costFit 30, break-even 0.5 |
| Scoring.OverallAsWritten | lib/scoring.ts:76-81 | the lookup on a plain object gives NaN exactly on the inherited member names and a finite score on every other difficulty |
| Scoring.OverallAsWrittenAgrees | lib/scoring.ts:76-81 | apart from inherited member names, the literal lookup gives the same overall score as the own-key lookup |
| Scoring.InheritedVisaKeyGivesNaN | lib/scoring.ts:76-81 | the difficulty "constructor" gives NaN as written and 97 under the intended default of 70 |
| Roi.TaxRate | lib/roi.ts:26-42 | the rate lies in 0.15..0.37 and is 0.25 for a country not in the table |
| Roi.AfterTaxSalary | lib/roi.ts:42-43 | the after-tax salary is between 63% and 85% of a non-negative gross salary |
| Roi.LoanRequested | lib/roi.ts:48 | the truthiness guard: amount, rate and term all present and non-zero; its effect is stated by `Loan` |
| Roi.AmortizedPayment | lib/roi.ts:49-52 | the fixed monthly payment; `AmortizationRepaysLoan` proves it repays the loan exactly and `AmortizedInterestNonNegative` that it never pays back less than the principal |
| Roi.Loan | lib/roi.ts:45-57 | no payment unless amount, rate and term are all truthy (so a zero rate means no loan); a negative rate splits the amount equally over the months; a positive rate gives interest = payments − principal, and for a positive term the monthly payment brings the month-by-month balance to exactly zero after the last month |
| Roi.ComputeLoan | lib/roi.ts:45-57 | the imperative loan block computes exactly `Loan(input)` |
| Roi.AmortizationRepaysLoan | lib/roi.ts:49-52 | paying the amortized monthly amount for n months leaves a balance of exactly zero |
| Roi.AmortizedInterestNonNegative | lib/roi.ts:49-53 | at a positive rate, the total interest on a non-negative principal is never negative |
| Roi.BreakEvenYears | lib/roi.ts:59-65 | exactly 99 when net income is not positive, else a one-decimal value within 0.05 of cost / net income, that is, the ratio rounded to one decimal |
| Roi.GrownSalaryIsPower | lib/roi.ts:70-80 | the salary of year k+1 is the after-tax salary times 1.03^k |
| Roi.CumulativeNetClosedForm | lib/roi.ts:69-74 | the running sum of net earnings is a geometric series less k years of loan payments |
| Roi.Projection | lib/roi.ts:67-81 | the projection has exactly 5 entries, for years 1..5 in order |
| Roi.ProjectYears | lib/roi.ts:67-81 | the projection loop builds exactly `Projection`: rounded net earnings, rounded unrounded-running cumulative |
| Roi.SumEarnings | lib/roi.ts:83 | the `reduce` over the projection's earnings; `RoundedSumDrift` bounds it against the unrounded total and `SumOfZeroEarnings` gives its zero case |
| Roi.RoiOf | lib/roi.ts:38-97 | the whole result as a function of the input, which `CalculateROI` is proved to compute; its properties are carried by `EarningsNonDecreasing`, `NetGainNearLastCumulative`, `NetGainCanDifferFromLastCumulative` and `UsaScenario` |
| Roi.CalculateROI | lib/roi.ts:38-97 | the imperative calculation returns exactly `RoiOf(input)` |
| Roi.CompareROI | lib/roi.ts:99-104 | each half of the comparison is the result of its own input only |
| Roi.GrownSalaryNonDecreasing | lib/roi.ts:80 | with a non-negative after-tax salary, the 3% yearly raise never lowers the salary |
| Roi.EarningsNonDecreasing | lib/roi.ts:72-80 | with a non-negative after-tax salary, yearly earnings never fall |
| Roi.RoundedSumDrift | lib/roi.ts:72-84 | the sum of the first j rounded earnings stays within j/2 of the unrounded total |
| Roi.NetGainNearLastCumulative | lib/roi.ts:74-91 | the five-year net gain differs from the last cumulative figure by at most 3 |
| Roi.NetGainCanDifferFromLastCumulative | lib/roi.ts:74-91 | with no costs, no loan and an after-tax salary in 0.4..0.44, the net gain is 0 and the last cumulative is 2 |
| Roi.UsaScenario | lib/roi.ts:38-97 | 20000 + 15000 for two years and 60000 in the USA: cost 70000, after tax 45000, break-even 1.6, no loan |
| Roi.AfterTaxSalaryAsWritten | lib/roi.ts:42-43 | the lookup on a plain object gives NaN exactly on the inherited member names and a finite salary on every other country |
| Roi.AfterTaxSalaryAsWrittenAgrees | lib/roi.ts:42-43 | apart from inherited member names, the literal lookup agrees with the own-key lookup |
| Roi.InheritedCountryGivesNaN | lib/roi.ts:42-43 | the country "constructor" gives NaN as written and 45000 under the intended 25% default |
| RoiCalculatorPage.Filter | src/pages/ROICalculator.tsx:16 | only kept characters survive, each taken from the input |
| RoiCalculatorPage.RunPrefix | src/pages/ROICalculator.tsx:16 | the longest prefix of digits and commas: a prefix, all run characters, followed by a non-run character or the end |
| RoiCalculatorPage.FirstRun | src/pages/ROICalculator.tsx:16 | none exactly when there is no digit or comma; otherwise the maximal run starting at the first digit or comma |
| RoiCalculatorPage.StripCommas | src/pages/ROICalculator.tsx:18 | `replace(/,/g, '')`: no comma remains and the result is never longer; `StripCommasOfDigits` and `StripCommasEmpty` state what is kept |
| RoiCalculatorPage.DigitsValue | src/pages/ROICalculator.tsx:18 | `parseInt(…, 10)` of a digit string; `DigitsValueOfDigits` proves it inverts `Digits` |
| RoiCalculatorPage.ParseINR | src/pages/ROICalculator.tsx:15-19 | NaN exactly when the first run holds only commas; 0 for an input without digits or commas |
| RoiCalculatorPage.DeletedCharacterIgnored | src/pages/ROICalculator.tsx:16-17 | removing a deleted character (space, letter, bracket) anywhere does not change the result |
| RoiCalculatorPage.SpaceDoesNotSplit | src/pages/ROICalculator.tsx:16-18 | two digit groups separated by a space read as one number ("20 000" is 20000) |
| RoiCalculatorPage.KeptSeparatorEndsRun | src/pages/ROICalculator.tsx:16-18 | a kept character that is not a digit or comma (`.`, `-`, the rupee sign) ends the number, so the leading digits are the value: "20.5" reads as 20 and "18-25" as 18 |
| RoiCalculatorPage.CommasOnlyIsNotANumber | src/pages/ROICalculator.tsx:17-18 | ",,," reaches `parseInt("")` and is NaN |
| RoiCalculatorPage.DigitsValueOfDigits | src/pages/ROICalculator.tsx:18 | reading the decimal digits of n gives back n |
| RoiCalculatorPage.FormatINR | src/pages/ROICalculator.tsx:80 | the rupee sign, a minus for a negative number and the digits in Indian grouping; `GroupIndianStrips` and `FormatThenParse` carry its properties |
| RoiCalculatorPage.FormatThenParse | src/pages/ROICalculator.tsx:15-19 | parsing what `formatINR` (line 80) displays for a whole number n gives back abs(n) |
| RoiCalculatorPage.PageBreakEven | src/pages/ROICalculator.tsx:25 | 0 when the after-tax salary is not positive, else a one-decimal value within 0.05 of cost / salary; always a multiple of 0.1 |
| RoiCalculatorPage.RoundThreeQuarters | src/pages/ROICalculator.tsx:24 | `Math.round(salary * 0.75)` of a whole salary is the integer (3·salary + 2) div 4 |
| RoiCalculatorPage.PageProjection | src/pages/ROICalculator.tsx:27-33 | exactly five entries; entry k is year k+1, earns the after-tax salary and has cumulative −cost + (k+1)·salary |
| RoiCalculatorPage.CalculateROI | src/pages/ROICalculator.tsx:21-42 | total cost (tuition + living) × duration; after-tax salary (3·salary + 2) div 4; projection of 5 years, each earning the after-tax salary, cumulative −cost + k·salary; net gain equals the last cumulative, 5·salary − cost |
| RoiCalculatorPage.CumulativeNonNegativeAfterBreakEven | src/pages/ROICalculator.tsx:25-33 | the year-k cumulative is non-negative exactly when k reaches cost / salary |
| RoiCalculatorPage.FirstYearAgreesWithServer | src/pages/ROICalculator.tsx:22-30 | for a 25%-tax country and no loan, the page's after-tax salary and first-year earnings equal the server engine's |
| RoiCalculatorPage.RowWinner | src/pages/ROICalculator.tsx:165 | Tie exactly on equal values; A exactly when A's value is smaller (lower-is-better rows) or larger (other rows); B symmetrically |
| RoiCalculatorPage.RowWinnerSwap | src/pages/ROICalculator.tsx:165 | swapping A and B swaps the winner |
| RoiCalculatorPage.LowerIsBetterIsNegatedHigher | src/pages/ROICalculator.tsx:165 | a lower-is-better row is a higher-is-better row on the negated values |
| RoiCalculatorPage.CompareSummary | src/pages/ROICalculator.tsx:154-165 | four rows; A wins lower cost, higher after-tax salary, lower break-even, higher net gain |
| RoiCalculatorPage.CompareSummarySwap | src/pages/ROICalculator.tsx:154-165 | swapping the universities swaps every row's winner |
| Validation.SanitizeInput | lib/validation.ts:57-64 | the five `.replace` passes in order; `SanitizeIsEscapeEach`, `SanitizedHasNoSpecials`, `SanitizeIdempotent`, `SanitizeLength` and `UnescapeSanitize` carry its properties |
| Validation.Entity | lib/validation.ts:58-63 | a special character becomes an entity starting with `&` and free of specials; every other character, `&` included, stays as it is |
| Validation.EscapeEach | lib/validation.ts:57-64 | the per-character escape has no special characters and is never shorter |
| Validation.SanitizeIsEscapeEach | lib/validation.ts:57-64 | the chain of five replacements equals escaping each character independently |
| Validation.SanitizedHasNoSpecials | lib/validation.ts:57-64 | the output holds none of `<`, `>`, `"`, `'`, `/` |
| Validation.SanitizeIdempotent | lib/validation.ts:57-64 | sanitising twice is sanitising once |
| Validation.SanitizeLength | lib/validation.ts:57-64 | the output is never shorter, and has the same length (and is unchanged) exactly when the input has no special character |
| Validation.SanitizeNotInjective | lib/validation.ts:58-63 | "<" and "&lt;" sanitise to the same text, since `&` is kept |
| Validation.UnescapeSanitize | lib/validation.ts:57-64 | on text without `&`, decoding the five entities undoes the sanitiser |
| Validation.ValidateFileUpload | lib/validation.ts:69-82 | valid exactly when the type is allowed and the size is at most 5 MiB; valid exactly when no error; a bad type reports the type error, an oversized allowed file the size error |
| Validation.SizeCapIsInclusive | lib/validation.ts:71-81 | exactly 5242880 bytes passes and 5242881 bytes fails with the size error |
| Validation.TypeErrorFirst | lib/validation.ts:73-79 | a refused type reports the same error whatever the size |

## Left out

- Floating point: every quantity is an exact real. The rounding of `*`, `/`,
  `Math.pow` and the repeated `salary *= 1.03` in IEEE-754 doubles is not
  modelled, so results that sit exactly on a rounding or bracket boundary
  may differ from what a double computes.
- NaN and Infinity as inputs: missing or non-numeric fields of a university
  row, which JavaScript turns into NaN, are not represented. NaN appears only
  where the model names it: `parseINR` on a run of commas, and the
  inherited-key lookups under "Findings".
- Scoring.CalculateMatchScore: requires a non-zero budget. A zero budget
  makes JavaScript divide by zero, and the model does not represent the
  resulting Infinity or NaN ratio. The application only calls the score when
  the student's budget is set (truthy).
- Roi.Loan: takes the loan term in whole years, as the application's ROI form
  sends it (app/roi-calculator/page.tsx:58). The engine also accepts a term such
  as 1.5 years (18 whole months), which the model does not represent. A term
  that is not a whole number of months would make `Math.pow` a real power.
- Roi.AfterTaxSalary: its bound (63%..85% of the salary) is stated for
  non-negative salaries only.
- RoiCalculatorPage.CalculateROI: takes whole numbers, as `parseINR` produces.
  The NaN that `parseINR` returns for a run of commas would spread through
  every field, and this is not modelled. The page always uses the default
  duration of 2 years.
- RoiCalculatorPage.ParseINR: gives the exact value of any digit string.
  `parseInt` loses precision above 2^53.
- RoiCalculatorPage.FormatINR: models `toLocaleString('en-IN')` for whole
  numbers only (Indian grouping, minus sign). Fractional digits are not
  modelled.
- RoiCalculatorPage.RowWinner: compares exact numbers. JavaScript's NaN
  comparisons, which would make every row a tie, are not modelled.
- The page component itself is not modelled: selecting universities, React
  state, the `compute` handler and rendering. The comparison rows are
  modelled from the two results they read.
- `validateFileUpload` reads only `mimetype` and `size` of the uploaded file;
  the rest of the upload object is not modelled. The zod schemas of
  `lib/validation.ts` are declarations over a library that is not part of
  this model.
- The rupee sign in the page's source is stored as three characters (U+201A,
  U+00C7, U+03C0): the UTF-8 bytes of `₹` read back one by one. The parser's
  character class and the formatter's prefix both hold these three, and the
  model uses them as written.

## Findings

| source | as written | input that shows it | evidently intended | confidence | as-written member | corrected member |
|---|---|---|---|---|---|---|
| lib/scoring.ts:71-76 | `visaScores[uni.visa_difficulty] \|\| 70` looks the difficulty up on a plain object literal, so names inherited from `Object.prototype` are found. Their values are functions (or an object), which are truthy and survive `\|\| 70`. | visa difficulty "constructor" with all other sub-scores 100: overall is NaN. The value can be stored: app/api/admin/universities/route.ts:19 inserts the request body unchecked | any difficulty other than low/medium/high scores 70 (overall 97 here) | not executed; follows from JavaScript property lookup | Scoring.OverallAsWritten, Scoring.InheritedVisaKeyGivesNaN | Scoring.VisaScore, Scoring.OverallAsWrittenAgrees |
| lib/roi.ts:26-43 | `TAX_RATES[input.country] \|\| 0.25` has the same lookup on a plain object literal, so an inherited name yields a function and `1 - taxRate` is NaN | country "constructor", average salary 60000: the after-tax salary, each projection entry's earnings and cumulative, the five-year earnings and the net gain are NaN; break-even is 99; the cost and loan figures are unaffected. Any client can send it: app/api/roi/route.ts:19 passes the request body to `calculateROI` | any country outside the table is taxed at 25% (after-tax salary 45000 here) | not executed; follows from JavaScript property lookup | Roi.AfterTaxSalaryAsWritten, Roi.InheritedCountryGivesNaN | Roi.TaxRate, Roi.AfterTaxSalaryAsWrittenAgrees |
