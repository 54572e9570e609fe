/** The match-score engine: a weighted 0..100 fit score of a university for a
    student, built from stepped bracket scores (40% academic, 30% budget,
    20% return on investment, 10% visa risk). */
module Scoring {
  import opened Js

  datatype UserProfile = UserProfile(cgpa: real, ielts: real, budget: real)

  datatype UniversityData = UniversityData(
    minimumCgpa: real,
    requiredIelts: real,
    tuitionFee: real,
    livingCost: real,
    averageSalary: real,
    visaDifficulty: string)

  datatype Breakdown = Breakdown(
    cgpaScore: int,
    ieltsScore: int,
    costFit: int,
    breakEvenYears: real,
    visaRisk: string)

  datatype MatchScore = MatchScore(
    overall: int,
    academic: int,
    budget: int,
    roi: int,
    visa: int,
    breakdown: Breakdown)

  // ---------------------------------------------------------------------------
  // Bracket tables: the reference reading of every if/else-if chain below.
  // ---------------------------------------------------------------------------

  /** One step of a stepped score: a bound and the score awarded when it is met. */
  datatype Bracket = Bracket(bound: real, score: int)

  /** Scores never rise from one bracket to the next, and the fallback is the lowest. */
  ghost predicate Stepped(table: seq<Bracket>, otherwise: int)
  {
    && (forall i, j :: 0 <= i < j < |table| ==> table[j].score <= table[i].score)
    && (forall i :: 0 <= i < |table| ==> otherwise <= table[i].score)
  }

  /** First bracket, top to bottom, whose bound `x` reaches (`x >= bound`). */
  function FirstAtLeast(table: seq<Bracket>, x: real, otherwise: int): int
  {
    if table == [] then otherwise
    else if x >= table[0].bound then table[0].score
    else FirstAtLeast(table[1..], x, otherwise)
  }

  /** First bracket, top to bottom, whose bound `x` stays within (`x <= bound`). */
  function FirstAtMost(table: seq<Bracket>, x: real, otherwise: int): int
  {
    if table == [] then otherwise
    else if x <= table[0].bound then table[0].score
    else FirstAtMost(table[1..], x, otherwise)
  }

  lemma {:induction false} FirstAtLeastBelowTop(table: seq<Bracket>, x: real, otherwise: int)
    requires Stepped(table, otherwise) && table != []
    ensures FirstAtLeast(table, x, otherwise) <= table[0].score
  {
    if x < table[0].bound && |table| > 1 {
      FirstAtLeastBelowTop(table[1..], x, otherwise);
    }
  }

  lemma {:induction false} FirstAtMostBelowTop(table: seq<Bracket>, x: real, otherwise: int)
    requires Stepped(table, otherwise) && table != []
    ensures FirstAtMost(table, x, otherwise) <= table[0].score
  {
    if x > table[0].bound && |table| > 1 {
      FirstAtMostBelowTop(table[1..], x, otherwise);
    }
  }

  /** A larger value never scores lower on a ">= bound" table. */
  lemma {:induction false} FirstAtLeastMonotone(table: seq<Bracket>, otherwise: int, x: real, y: real)
    requires Stepped(table, otherwise)
    requires x <= y
    ensures FirstAtLeast(table, x, otherwise) <= FirstAtLeast(table, y, otherwise)
  {
    if table != [] {
      if y >= table[0].bound {
        FirstAtLeastBelowTop(table, x, otherwise);
      } else {
        FirstAtLeastMonotone(table[1..], otherwise, x, y);
      }
    }
  }

  /** A smaller value never scores lower on a "<= bound" table. */
  lemma {:induction false} FirstAtMostAntitone(table: seq<Bracket>, otherwise: int, x: real, y: real)
    requires Stepped(table, otherwise)
    requires x <= y
    ensures FirstAtMost(table, y, otherwise) <= FirstAtMost(table, x, otherwise)
  {
    if table != [] {
      if x <= table[0].bound {
        FirstAtMostBelowTop(table, y, otherwise);
      } else {
        FirstAtMostAntitone(table[1..], otherwise, x, y);
      }
    }
  }

  // ---------------------------------------------------------------------------
  // Academic fit
  // ---------------------------------------------------------------------------

  const CgpaBrackets: seq<Bracket> :=
    [Bracket(0.5, 100), Bracket(0.0, 85), Bracket(-0.2, 70), Bracket(-0.5, 50)]

  /** CGPA score on the margin `cgpa - minimum_cgpa`. */
  function CgpaScore(cgpaDiff: real): (score: int)
    ensures score == 100 || score == 85 || score == 70 || score == 50 || score == 30
  {
    if cgpaDiff >= 0.5 then 100
    else if cgpaDiff >= 0.0 then 85
    else if cgpaDiff >= -0.2 then 70
    else if cgpaDiff >= -0.5 then 50
    else 30
  }

  lemma CgpaScoreIsBracketed(cgpaDiff: real)
    ensures CgpaScore(cgpaDiff) == FirstAtLeast(CgpaBrackets, cgpaDiff, 30)
  {
    assert CgpaBrackets[1..][1..][1..][1..] == [];
    assert FirstAtLeast(CgpaBrackets[1..][1..][1..], cgpaDiff, 30) == (if cgpaDiff >= -0.5 then 50 else 30);
    assert FirstAtLeast(CgpaBrackets[1..][1..], cgpaDiff, 30) == (if cgpaDiff >= -0.2 then 70 else if cgpaDiff >= -0.5 then 50 else 30);
    assert FirstAtLeast(CgpaBrackets[1..], cgpaDiff, 30) == (if cgpaDiff >= 0.0 then 85 else if cgpaDiff >= -0.2 then 70 else if cgpaDiff >= -0.5 then 50 else 30);
  }

  /** Raising the student's CGPA never lowers the CGPA score. */
  lemma CgpaScoreMonotone(cgpa1: real, cgpa2: real, minimumCgpa: real)
    requires cgpa1 <= cgpa2
    ensures CgpaScore(cgpa1 - minimumCgpa) <= CgpaScore(cgpa2 - minimumCgpa)
  {
    CgpaScoreIsBracketed(cgpa1 - minimumCgpa);
    CgpaScoreIsBracketed(cgpa2 - minimumCgpa);
    FirstAtLeastMonotone(CgpaBrackets, 30, cgpa1 - minimumCgpa, cgpa2 - minimumCgpa);
  }

  const IeltsBrackets: seq<Bracket> :=
    [Bracket(1.0, 100), Bracket(0.0, 85), Bracket(-0.5, 60)]

  /** IELTS score on the margin `ielts - required_ielts`. */
  function IeltsScore(ieltsDiff: real): (score: int)
    ensures 30 <= score <= 100
  {
    if ieltsDiff >= 1.0 then 100
    else if ieltsDiff >= 0.0 then 85
    else if ieltsDiff >= -0.5 then 60
    else 30
  }

  lemma IeltsScoreIsBracketed(ieltsDiff: real)
    ensures IeltsScore(ieltsDiff) == FirstAtLeast(IeltsBrackets, ieltsDiff, 30)
  {
    assert IeltsBrackets[1..][1..][1..] == [];
    assert FirstAtLeast(IeltsBrackets[1..][1..], ieltsDiff, 30) == (if ieltsDiff >= -0.5 then 60 else 30);
    assert FirstAtLeast(IeltsBrackets[1..], ieltsDiff, 30) == (if ieltsDiff >= 0.0 then 85 else if ieltsDiff >= -0.5 then 60 else 30);
  }

  /** Raising the student's IELTS band never lowers the IELTS score. */
  lemma IeltsScoreMonotone(ielts1: real, ielts2: real, requiredIelts: real)
    requires ielts1 <= ielts2
    ensures IeltsScore(ielts1 - requiredIelts) <= IeltsScore(ielts2 - requiredIelts)
  {
    IeltsScoreIsBracketed(ielts1 - requiredIelts);
    IeltsScoreIsBracketed(ielts2 - requiredIelts);
    FirstAtLeastMonotone(IeltsBrackets, 30, ielts1 - requiredIelts, ielts2 - requiredIelts);
  }

  /** Equal-weight blend of the two academic scores, rounded. */
  function Academic(cgpaScore: int, ieltsScore: int): (academic: int)
    requires 30 <= cgpaScore <= 100 && 30 <= ieltsScore <= 100
    ensures 30 <= academic <= 100
    ensures cgpaScore <= ieltsScore ==> cgpaScore <= academic <= ieltsScore
    ensures ieltsScore <= cgpaScore ==> ieltsScore <= academic <= cgpaScore
  {
    Round(cgpaScore as real * 0.5 + ieltsScore as real * 0.5)
  }

  // ---------------------------------------------------------------------------
  // Budget fit
  // ---------------------------------------------------------------------------

  /** One year of tuition and living cost. */
  function AnnualCost(uni: UniversityData): real
  {
    uni.tuitionFee + uni.livingCost
  }

  function CostRatio(user: UserProfile, uni: UniversityData): real
    requires user.budget != 0.0
  {
    AnnualCost(uni) / user.budget
  }

  const BudgetBrackets: seq<Bracket> :=
    [Bracket(0.8, 100), Bracket(1.0, 85), Bracket(1.2, 60)]

  /** Budget score on the ratio of annual cost to the student's budget. */
  function BudgetScore(costRatio: real): (score: int)
    ensures 30 <= score <= 100
  {
    if costRatio <= 0.8 then 100
    else if costRatio <= 1.0 then 85
    else if costRatio <= 1.2 then 60
    else 30
  }

  lemma BudgetScoreIsBracketed(costRatio: real)
    ensures BudgetScore(costRatio) == FirstAtMost(BudgetBrackets, costRatio, 30)
  {
    assert BudgetBrackets[1..][1..][1..] == [];
    assert FirstAtMost(BudgetBrackets[1..][1..], costRatio, 30) == (if costRatio <= 1.2 then 60 else 30);
    assert FirstAtMost(BudgetBrackets[1..], costRatio, 30) == (if costRatio <= 1.0 then 85 else if costRatio <= 1.2 then 60 else 30);
  }

  /** For a positive budget, a larger budget never lowers the budget score. */
  lemma BudgetScoreMonotoneInBudget(annualCost: real, budget1: real, budget2: real)
    requires 0.0 < budget1 <= budget2
    ensures BudgetScore(annualCost / budget1) <= BudgetScore(annualCost / budget2)
  {
    var r1, r2 := annualCost / budget1, annualCost / budget2;
    if annualCost >= 0.0 {
      DivAntitone(annualCost, budget1, budget2);
      BudgetScoreIsBracketed(r1);
      BudgetScoreIsBracketed(r2);
      FirstAtMostAntitone(BudgetBrackets, 30, r2, r1);
    } else {
      assert r2 < 0.0;
    }
  }

  // ---------------------------------------------------------------------------
  // Return on investment
  // ---------------------------------------------------------------------------

  /** `average_salary || 50000`: a zero salary is replaced by 50000. */
  function SalaryOrDefault(averageSalary: real): (salary: real)
    ensures salary != 0.0
    ensures averageSalary != 0.0 ==> salary == averageSalary
  {
    if averageSalary == 0.0 then 50000.0 else averageSalary
  }

  /** Years of salary that one year of cost amounts to. */
  function BreakEvenYears(uni: UniversityData): real
  {
    AnnualCost(uni) / SalaryOrDefault(uni.averageSalary)
  }

  const RoiBrackets: seq<Bracket> :=
    [Bracket(1.0, 100), Bracket(2.0, 85), Bracket(3.0, 65)]

  function RoiScore(breakEvenYears: real): (score: int)
    ensures 40 <= score <= 100
  {
    if breakEvenYears <= 1.0 then 100
    else if breakEvenYears <= 2.0 then 85
    else if breakEvenYears <= 3.0 then 65
    else 40
  }

  lemma RoiScoreIsBracketed(breakEvenYears: real)
    ensures RoiScore(breakEvenYears) == FirstAtMost(RoiBrackets, breakEvenYears, 40)
  {
    assert RoiBrackets[1..][1..][1..] == [];
    assert FirstAtMost(RoiBrackets[1..][1..], breakEvenYears, 40) == (if breakEvenYears <= 3.0 then 65 else 40);
    assert FirstAtMost(RoiBrackets[1..], breakEvenYears, 40) == (if breakEvenYears <= 2.0 then 85 else if breakEvenYears <= 3.0 then 65 else 40);
  }

  /** Among positive salaries, a higher salary never lowers the ROI score. */
  lemma RoiScoreMonotoneInSalary(annualCost: real, salary1: real, salary2: real)
    requires 0.0 < salary1 <= salary2
    ensures RoiScore(annualCost / SalaryOrDefault(salary1))
         <= RoiScore(annualCost / SalaryOrDefault(salary2))
  {
    var r1, r2 := annualCost / salary1, annualCost / salary2;
    if annualCost >= 0.0 {
      DivAntitone(annualCost, salary1, salary2);
      RoiScoreIsBracketed(r1);
      RoiScoreIsBracketed(r2);
      FirstAtMostAntitone(RoiBrackets, 40, r2, r1);
    } else {
      assert r2 < 0.0;
    }
  }

  /** The zero-salary fallback breaks monotonicity: raising a salary of 0 to 1
      drops the ROI score from 100 to 40 for an annual cost of 35000. */
  lemma SalaryFallbackNotMonotone()
    ensures RoiScore(35000.0 / SalaryOrDefault(0.0)) == 100
    ensures RoiScore(35000.0 / SalaryOrDefault(1.0)) == 40
  {
  }

  // ---------------------------------------------------------------------------
  // Visa risk
  // ---------------------------------------------------------------------------

  const VisaScores: map<string, int> := map["low" := 100, "medium" := 70, "high" := 40]

  /** Visa score looked up by difficulty; any other string scores 70. */
  function VisaScore(visaDifficulty: string): (score: int)
    ensures visaDifficulty !in VisaScores ==> score == 70
    ensures score == 40 || score == 70 || score == 100
  {
    if visaDifficulty in VisaScores then VisaScores[visaDifficulty] else 70
  }

  // ---------------------------------------------------------------------------
  // Overall score
  // ---------------------------------------------------------------------------

  function Overall(academic: int, budget: int, roi: int, visa: int): (overall: int)
    requires 30 <= academic <= 100 && 30 <= budget <= 100
    requires 40 <= roi <= 100 && 40 <= visa <= 100
    ensures 33 <= overall <= 100
  {
    Round(academic as real * 0.4 + budget as real * 0.3 + roi as real * 0.2 + visa as real * 0.1)
  }

  /** Raising any sub-score never lowers the overall score. */
  lemma OverallMonotone(a1: int, b1: int, r1: int, v1: int, a2: int, b2: int, r2: int, v2: int)
    requires 30 <= a1 <= a2 <= 100 && 30 <= b1 <= b2 <= 100
    requires 40 <= r1 <= r2 <= 100 && 40 <= v1 <= v2 <= 100
    ensures Overall(a1, b1, r1, v1) <= Overall(a2, b2, r2, v2)
  {
    RoundMonotone(a1 as real * 0.4 + b1 as real * 0.3 + r1 as real * 0.2 + v1 as real * 0.1,
                  a2 as real * 0.4 + b2 as real * 0.3 + r2 as real * 0.2 + v2 as real * 0.1);
  }

  /** The complete match score, as the hosting layer calls it: only for a
      student whose budget is set (non-zero). */
  function CalculateMatchScore(user: UserProfile, uni: UniversityData): (m: MatchScore)
    requires user.budget != 0.0
    ensures 33 <= m.overall <= 100
    ensures 30 <= m.academic <= 100 && 30 <= m.budget <= 100
    ensures 40 <= m.roi <= 100 && 40 <= m.visa <= 100
    ensures m.overall == Round(m.academic as real * 0.4 + m.budget as real * 0.3
                               + m.roi as real * 0.2 + m.visa as real * 0.1)
    ensures m.breakdown.cgpaScore == CgpaScore(user.cgpa - uni.minimumCgpa)
    ensures m.breakdown.ieltsScore == IeltsScore(user.ielts - uni.requiredIelts)
    ensures m.academic == Academic(m.breakdown.cgpaScore, m.breakdown.ieltsScore)
    ensures m.budget == BudgetScore(CostRatio(user, uni))
    ensures m.roi == RoiScore(BreakEvenYears(uni))
    ensures m.visa == VisaScore(uni.visaDifficulty)
    ensures m.breakdown.visaRisk == uni.visaDifficulty
    ensures 0.0 < user.budget && AnnualCost(uni) <= user.budget ==> m.breakdown.costFit >= 0
    ensures AnnualCost(uni) > user.budget > 0.0 ==> m.breakdown.costFit <= 0
    ensures m.breakdown.costFit == Round((1.0 - CostRatio(user, uni)) * 100.0)
    ensures BreakEvenYears(uni) - 0.05 < m.breakdown.breakEvenYears <= BreakEvenYears(uni) + 0.05
    ensures (m.breakdown.breakEvenYears * 10.0).Floor as real == m.breakdown.breakEvenYears * 10.0
  {
    var cgpaScore := CgpaScore(user.cgpa - uni.minimumCgpa);
    var ieltsScore := IeltsScore(user.ielts - uni.requiredIelts);
    var academic := Academic(cgpaScore, ieltsScore);
    var costRatio := CostRatio(user, uni);
    var budgetScore := BudgetScore(costRatio);
    var breakEvenYears := BreakEvenYears(uni);
    var roiScore := RoiScore(breakEvenYears);
    var visaScore := VisaScore(uni.visaDifficulty);
    var overall := Overall(academic, budgetScore, roiScore, visaScore);
    assert 0.0 < user.budget && AnnualCost(uni) <= user.budget ==> costRatio <= 1.0 by {
      if 0.0 < user.budget && AnnualCost(uni) <= user.budget {
        assert costRatio * user.budget == AnnualCost(uni);
      }
    }
    assert AnnualCost(uni) > user.budget > 0.0 ==> costRatio > 1.0 by {
      if AnnualCost(uni) > user.budget > 0.0 {
        assert costRatio * user.budget == AnnualCost(uni);
      }
    }
    MatchScore(
      overall, academic, budgetScore, roiScore, visaScore,
      Breakdown(
        cgpaScore,
        ieltsScore,
        Round((1.0 - costRatio) * 100.0),
        Round(breakEvenYears * 10.0) as real / 10.0,
        uni.visaDifficulty))
  }

  /** Raising the student's CGPA, all else fixed, never lowers the academic or
      the overall score. */
  lemma MatchScoreMonotoneInCgpa(user: UserProfile, uni: UniversityData, cgpa: real)
    requires user.budget != 0.0 && user.cgpa <= cgpa
    ensures CalculateMatchScore(user, uni).academic
         <= CalculateMatchScore(user.(cgpa := cgpa), uni).academic
    ensures CalculateMatchScore(user, uni).overall
         <= CalculateMatchScore(user.(cgpa := cgpa), uni).overall
  {
    var m1, m2 := CalculateMatchScore(user, uni), CalculateMatchScore(user.(cgpa := cgpa), uni);
    CgpaScoreMonotone(user.cgpa, cgpa, uni.minimumCgpa);
    var i := m1.breakdown.ieltsScore as real * 0.5;
    RoundMonotone(m1.breakdown.cgpaScore as real * 0.5 + i, m2.breakdown.cgpaScore as real * 0.5 + i);
    OverallMonotone(m1.academic, m1.budget, m1.roi, m1.visa, m2.academic, m2.budget, m2.roi, m2.visa);
  }

  /** Raising a positive budget, all else fixed, never lowers the budget or the
      overall score. */
  lemma MatchScoreMonotoneInBudget(user: UserProfile, uni: UniversityData, budget: real)
    requires 0.0 < user.budget <= budget
    ensures CalculateMatchScore(user, uni).budget
         <= CalculateMatchScore(user.(budget := budget), uni).budget
    ensures CalculateMatchScore(user, uni).overall
         <= CalculateMatchScore(user.(budget := budget), uni).overall
  {
    var m1, m2 := CalculateMatchScore(user, uni), CalculateMatchScore(user.(budget := budget), uni);
    BudgetScoreMonotoneInBudget(AnnualCost(uni), user.budget, budget);
    OverallMonotone(m1.academic, m1.budget, m1.roi, m1.visa, m2.academic, m2.budget, m2.roi, m2.visa);
  }

  /** Among positive salaries, raising the graduate salary never lowers the ROI
      or the overall score. */
  lemma MatchScoreMonotoneInSalary(user: UserProfile, uni: UniversityData, salary: real)
    requires user.budget != 0.0 && 0.0 < uni.averageSalary <= salary
    ensures CalculateMatchScore(user, uni).roi
         <= CalculateMatchScore(user, uni.(averageSalary := salary)).roi
    ensures CalculateMatchScore(user, uni).overall
         <= CalculateMatchScore(user, uni.(averageSalary := salary)).overall
  {
    var m1, m2 := CalculateMatchScore(user, uni), CalculateMatchScore(user, uni.(averageSalary := salary));
    RoiScoreMonotoneInSalary(AnnualCost(uni), uni.averageSalary, salary);
    OverallMonotone(m1.academic, m1.budget, m1.roi, m1.visa, m2.academic, m2.budget, m2.roi, m2.visa);
  }

  /** A student 0.3 above the CGPA bar and 0.5 above the IELTS bar lands in the
      85 bracket for both, not in the top one. */
  lemma BracketBoundaryScenario()
    ensures CalculateMatchScore(
              UserProfile(3.8, 7.5, 50000.0),
              UniversityData(3.5, 7.0, 20000.0, 15000.0, 70000.0, "low"))
         == MatchScore(94, 85, 100, 100, 100, Breakdown(85, 85, 30, 0.5, "low"))
  {
  }

  // ---------------------------------------------------------------------------
  // The visa lookup as written, over a plain JavaScript object
  // ---------------------------------------------------------------------------

  /** `visaScores[d] || 70` read literally: an inherited member of the object
      literal is a truthy non-number, so it survives `|| 70` and the weighted
      sum that uses it becomes NaN. */
  function OverallAsWritten(academic: int, budget: int, roi: int, visaDifficulty: string): (overall: Number)
    ensures visaDifficulty !in InheritedKeys ==> overall.Finite?
    ensures overall == NaN <==> visaDifficulty in InheritedKeys
  {
    if visaDifficulty in VisaScores then
      Finite(Round(academic as real * 0.4 + budget as real * 0.3 + roi as real * 0.2
                   + VisaScores[visaDifficulty] as real * 0.1) as real)
    else if visaDifficulty in InheritedKeys then NaN
    else Finite(Round(academic as real * 0.4 + budget as real * 0.3 + roi as real * 0.2 + 7.0) as real)
  }

  /** On every key but the inherited ones, the literal reading agrees with the
      model's own-key lookup. */
  lemma OverallAsWrittenAgrees(academic: int, budget: int, roi: int, visaDifficulty: string)
    requires 30 <= academic <= 100 && 30 <= budget <= 100 && 40 <= roi <= 100
    requires visaDifficulty !in InheritedKeys
    ensures OverallAsWritten(academic, budget, roi, visaDifficulty)
         == Finite(Overall(academic, budget, roi, VisaScore(visaDifficulty)) as real)
  {
  }

  /** The difficulty "constructor" scores 70 under the intended lookup but
      makes the overall score NaN as written. */
  lemma InheritedVisaKeyGivesNaN()
    ensures OverallAsWritten(100, 100, 100, "constructor") == NaN
    ensures VisaScore("constructor") == 70
    ensures Overall(100, 100, 100, VisaScore("constructor")) == 97
  {
  }
}
