/** What holds of every row of every schedule: drift, conservation and the absence of negative amortization. */
module Amortization {
  import opened Rounding
  import opened Annuity
  import opened Emi
  import opened Schedule

  /** The terms the loop runs on are those of a real loan: `exact` is the instalment before rounding. */
  predicate Sound(t: Terms, exact: real) {
    && t.principal > 0 && t.monthlyRate >= 0.0 && t.tenure >= 1
    && t.emi == RoundHalfEven(exact)
    && Clears(exact, t.principal as real, 1.0 + t.monthlyRate, t.tenure)
  }

  function TermsOf(principal: int, annualRate: real, tenure: int): Terms
    requires CalculateEmi(principal, annualRate, tenure).Success?
  {
    Terms(principal, MonthlyRate(annualRate), CalculateEmi(principal, annualRate, tenure).value, tenure)
  }

  lemma LoansAreSound(principal: int, annualRate: real, tenure: int)
    requires principal > 0 && annualRate >= 0.0 && tenure >= 1
    ensures UnroundedEmi(principal, annualRate, tenure).Success?
    ensures ScheduleOf(principal, annualRate, tenure).Success?
    ensures Sound(TermsOf(principal, annualRate, tenure), UnroundedEmi(principal, annualRate, tenure).value)
    ensures ScheduleOf(principal, annualRate, tenure).value.installments
         == Rows(TermsOf(principal, annualRate, tenure), tenure)
  {
    UnroundedEmiClears(principal, annualRate, tenure);
  }

  lemma {:induction false} RowsAt(t: Terms, k: nat, i: nat)
    requires 1 <= i <= k
    ensures Rows(t, k)[i - 1] == Row(t, i)
  {
    if i < k {
      RowsAt(t, k - 1, i);
    }
  }

  // ---- What a row holds -----------------------------------------------------------------------

  /** A twelfth of a year's percentage of the balance. */
  function MonthsShare(balance: int, annualRate: real): real {
    balance as real * annualRate / 1200.0
  }

  predicate ToTheNearestCent(cents: int, exact: real) {
    -0.5 <= cents as real - exact <= 0.5
  }

  lemma AccruedPerMonth(balance: int, annualRate: real)
    ensures AccruedInterest(balance, MonthlyRate(annualRate)) == MonthsShare(balance, annualRate)
  {
  }

  lemma InterestOfARow(t: Terms, annualRate: real, i: int)
    requires t.monthlyRate == MonthlyRate(annualRate) && 1 <= i < t.tenure
    ensures ToTheNearestCent(Row(t, i).interestComponent, MonthsShare(Row(t, i).openingBalance, annualRate))
  {
    var balance := BalanceAfter(t, i - 1);
    AccruedPerMonth(balance, annualRate);
    RoundIsNearest(AccruedInterest(balance, t.monthlyRate));
  }

  /** The interest of a row is a month's share of the annual percentage on its opening balance, to the nearest cent. */
  lemma InterestIsAMonthsShare(principal: int, annualRate: real, tenure: int, i: int)
    requires 1 <= i < tenure && ScheduleOf(principal, annualRate, tenure).Success?
    ensures var rows := ScheduleOf(principal, annualRate, tenure).value.installments;
            && |rows| == tenure
            && ToTheNearestCent(rows[i - 1].interestComponent, MonthsShare(rows[i - 1].openingBalance, annualRate))
  {
    var t := TermsOf(principal, annualRate, tenure);
    RowsAt(t, tenure, i);
    InterestOfARow(t, annualRate, i);
  }

  /** The first month's interest, for every loan of two months or more. */
  lemma FirstInterest(principal: int, annualRate: real, tenure: int)
    requires annualRate >= 0.0 && tenure >= 2
    ensures ScheduleOf(principal, annualRate, tenure).Success?
    ensures var rows := ScheduleOf(principal, annualRate, tenure).value.installments;
            && |rows| == tenure
            && ToTheNearestCent(rows[0].interestComponent, MonthsShare(principal, annualRate))
  {
    EmiFormulaIsAnnuity(principal, annualRate, tenure);
    InterestIsAMonthsShare(principal, annualRate, tenure, 1);
    RowsAt(TermsOf(principal, annualRate, tenure), tenure, 1);
  }

  /** What each row pays and leaves, and what the totals are, for every schedule there is. */
  lemma RowsPayAndLeave(principal: int, annualRate: real, tenure: int, i: int)
    requires 1 <= i <= tenure && ScheduleOf(principal, annualRate, tenure).Success?
    ensures var s := ScheduleOf(principal, annualRate, tenure).value;
            && |s.installments| == tenure
            && var row := s.installments[i - 1];
               && row.number == i
               && row.openingBalance == (if i == 1 then principal else s.installments[i - 2].closingBalance)
               && row.emiAmount == row.principalComponent + row.interestComponent
               && row.closingBalance
                  == (if row.openingBalance < row.principalComponent then 0
                      else row.openingBalance - row.principalComponent)
               && (i < tenure ==> row.emiAmount == s.monthlyEmi)
               && (i == tenure ==>
                     && row.principalComponent == row.openingBalance
                     && row.interestComponent == Max(s.monthlyEmi - row.openingBalance, 0))
  {
    var t := TermsOf(principal, annualRate, tenure);
    RowsAt(t, tenure, i);
    if i > 1 {
      RowsAt(t, tenure, i - 1);
    }
  }

  lemma TotalsOfTheSchedule(principal: int, annualRate: real, tenure: int)
    requires ScheduleOf(principal, annualRate, tenure).Success?
    ensures var s := ScheduleOf(principal, annualRate, tenure).value;
            && s.principal == principal && s.annualRate == annualRate && s.tenure == tenure
            && s.totalInterest == Total(InterestOf, s.installments)
            && s.totalRepayment == principal + s.totalInterest
            && (tenure < 1 ==> s.installments == [])
            && UnroundedEmi(principal, annualRate, tenure).Success?
            && ToTheNearestCent(s.monthlyEmi, UnroundedEmi(principal, annualRate, tenure).value)
  {
    RoundIsNearest(UnroundedEmi(principal, annualRate, tenure).value);
  }

  // ---- No negative amortization ---------------------------------------------------------------

  lemma ExactEmiCoversInterest(p: int, r: real, emi: real, n: nat)
    requires p > 0 && r >= 0.0 && n >= 1 && Clears(emi, p as real, 1.0 + r, n)
    ensures emi > AccruedInterest(p, r) && emi > 0.0
  {
    GeoAtLeastCount(1.0 + r, n);
    GeoClosedForm(1.0 + r, n);
    CoverAlgebra(p as real, r, emi, Geo(1.0 + r, n), Pow(1.0 + r, n));
  }

  lemma CoverAlgebra(p: real, r: real, emi: real, s: real, f: real)
    requires p > 0.0 && r >= 0.0 && s > 0.0 && emi * s == p * f && f - 1.0 == (1.0 + r - 1.0) * s
    ensures emi > p * r && emi > 0.0
  {
    assert p * f == (p * r) * s + p;
    CompareByFactor(p * r, emi, s);
  }

  lemma InterestIsMonotone(a: int, b: int, r: real)
    requires a <= b && r >= 0.0
    ensures RoundedInterest(a, r) <= RoundedInterest(b, r)
    ensures RoundedInterest(0, r) == 0
  {
    MulMono(r, a as real, b as real);
    RoundIsMonotone(AccruedInterest(a, r), AccruedInterest(b, r));
  }

  lemma EmiCoversInterest(t: Terms, exact: real, balance: int)
    requires Sound(t, exact) && 0 <= balance <= t.principal
    ensures 0 <= RoundedInterest(balance, t.monthlyRate) <= t.emi
  {
    InterestIsMonotone(0, balance, t.monthlyRate);
    InterestIsMonotone(balance, t.principal, t.monthlyRate);
    ExactEmiCoversInterest(t.principal, t.monthlyRate, exact, t.tenure);
    RoundIsMonotone(AccruedInterest(t.principal, t.monthlyRate), exact);
  }

  lemma {:induction false} BalanceStaysInRange(t: Terms, exact: real, k: nat)
    requires Sound(t, exact) && k <= t.tenure
    ensures 0 <= BalanceAfter(t, k) <= t.principal
  {
    if k > 0 {
      BalanceStaysInRange(t, exact, k - 1);
      EmiCoversInterest(t, exact, BalanceAfter(t, k - 1));
    }
  }

  /** Every row of every schedule pays its interest and some principal, adds up, takes over the balance the row
      before it left, and never lets the balance grow; the last row pays the rest and closes at zero. */
  lemma NoNegativeAmortization(principal: int, annualRate: real, tenure: int, i: int)
    requires principal > 0 && annualRate >= 0.0 && 1 <= i <= tenure
    ensures ScheduleOf(principal, annualRate, tenure).Success?
    ensures var schedule := ScheduleOf(principal, annualRate, tenure).value;
            var rows := schedule.installments;
            && |rows| == tenure && rows[i - 1].number == i
            && rows[i - 1].openingBalance == (if i == 1 then principal else rows[i - 2].closingBalance)
            && rows[i - 1].interestComponent >= 0 && rows[i - 1].principalComponent >= 0
            && rows[i - 1].principalComponent + rows[i - 1].interestComponent == rows[i - 1].emiAmount
            && 0 <= rows[i - 1].closingBalance <= rows[i - 1].openingBalance
            && (i < tenure ==> rows[i - 1].emiAmount == schedule.monthlyEmi)
            && (i == tenure ==>
                  && rows[i - 1].closingBalance == 0
                  && rows[i - 1].emiAmount == Max(schedule.monthlyEmi, rows[i - 1].openingBalance))
  {
    LoansAreSound(principal, annualRate, tenure);
    var t, exact := TermsOf(principal, annualRate, tenure), UnroundedEmi(principal, annualRate, tenure).value;
    RowsAt(t, tenure, i);
    if i > 1 {
      RowsAt(t, tenure, i - 1);
    }
    BalanceStaysInRange(t, exact, i - 1);
    EmiCoversInterest(t, exact, BalanceAfter(t, i - 1));
  }

  // ---- Drift ----------------------------------------------------------------------------------

  /** One month moves a rounded balance b and an exact balance x apart by at most r times their distance plus a cent. */
  lemma DriftStep(b: int, x: real, r: real, emi: int, exact: real, g: real)
    requires r >= 0.0 && Within(g, b as real, x) && emi == RoundHalfEven(exact)
    ensures Within(GeoStep(1.0 + r, g), (b - (emi - RoundedInterest(b, r))) as real, ExactStep(x, 1.0 + r, exact))
  {
    RoundIsNearest(exact);
    RoundIsNearest(AccruedInterest(b, r));
    DriftAlgebra(b as real, x, r, g, AccruedInterest(b, r));
  }

  lemma DriftAlgebra(b: real, x: real, r: real, g: real, accrued: real)
    requires r >= 0.0 && Within(g, b, x) && accrued == b * r
    ensures Within((1.0 + r) * g, b + accrued, x * (1.0 + r))
  {
    MulMono(r, b - x, g);
    MulMono(r, -g, b - x);
  }

  lemma {:induction false} BalanceDrift(t: Terms, exact: real, k: nat)
    requires Sound(t, exact) && k <= t.tenure
    ensures Within(Geo(1.0 + t.monthlyRate, k), BalanceAfter(t, k) as real,
                   ExactBalance(t.principal as real, 1.0 + t.monthlyRate, exact, k))
  {
    var p, q := t.principal as real, 1.0 + t.monthlyRate;
    ExactBalanceSign(p, q, exact, k, t.tenure);
    GeoAtLeastCount(q, k);
    if 0 < k < t.tenure {
      BalanceDrift(t, exact, k - 1);
      DriftStep(BalanceAfter(t, k - 1), ExactBalance(p, q, exact, k - 1), t.monthlyRate, t.emi, exact, Geo(q, k - 1));
    }
  }

  /** Rounding drift: after k rows the balance is within ((1+r)^k - 1)/r cents of exact amortization. */
  lemma RoundingDrift(principal: int, annualRate: real, tenure: int, k: int)
    requires principal > 0 && annualRate >= 0.0 && 1 <= k <= tenure
    ensures UnroundedEmi(principal, annualRate, tenure).Success?
    ensures ScheduleOf(principal, annualRate, tenure).Success?
    ensures var r := MonthlyRate(annualRate);
            var exact := UnroundedEmi(principal, annualRate, tenure).value;
            var closing := ScheduleOf(principal, annualRate, tenure).value.installments[k - 1].closingBalance;
            Within(DriftBound(r, k), closing as real, ExactBalance(principal as real, 1.0 + r, exact, k))
  {
    LoansAreSound(principal, annualRate, tenure);
    var t, exact := TermsOf(principal, annualRate, tenure), UnroundedEmi(principal, annualRate, tenure).value;
    RowsAt(t, tenure, k);
    BalanceDrift(t, exact, k);
    DriftBoundIsGeo(t.monthlyRate, k);
  }

  // ---- Conservation ---------------------------------------------------------------------------

  lemma {:induction false} Telescope(t: Terms, k: nat)
    ensures var rows := Rows(t, k);
            && Total(PrincipalOf, rows) == t.principal - BalanceAfter(t, k) + Total(OvershootOf, rows)
            && Total(PaymentOf, rows) == Total(PrincipalOf, rows) + Total(InterestOf, rows)
            && Total(OvershootOf, rows) >= 0
  {
    if k > 0 {
      Telescope(t, k - 1);
      TotalAppend(PrincipalOf, Rows(t, k - 1), Row(t, k));
      TotalAppend(InterestOf, Rows(t, k - 1), Row(t, k));
      TotalAppend(PaymentOf, Rows(t, k - 1), Row(t, k));
      TotalAppend(OvershootOf, Rows(t, k - 1), Row(t, k));
    }
  }

  /** Whatever the loan, nothing is lost: principal components add up to the principal and payments to the total
      repayment, each plus the amount the clamp hides. */
  lemma Conservation(principal: int, annualRate: real, tenure: int)
    requires tenure >= 1 && ScheduleOf(principal, annualRate, tenure).Success?
    ensures var s := ScheduleOf(principal, annualRate, tenure).value;
            && Total(PrincipalOf, s.installments) == principal + Total(OvershootOf, s.installments)
            && Total(PaymentOf, s.installments) == s.totalRepayment + Total(OvershootOf, s.installments)
            && Total(OvershootOf, s.installments) >= 0
  {
    Telescope(TermsOf(principal, annualRate, tenure), tenure);
  }

  /** The same rounded recurrence with no clamp. */
  function UnclampedBalance(principal: int, r: real, emi: int, k: nat): int {
    if k == 0 then principal
    else
      var b := UnclampedBalance(principal, r, emi, k - 1);
      b - (emi - RoundedInterest(b, r))
  }

  lemma {:induction false} OvershootStartsBelowZero(t: Terms, k: nat)
    requires t.principal >= 0 && t.monthlyRate >= 0.0 && t.emi >= 0 && k < t.tenure
    ensures var u := UnclampedBalance(t.principal, t.monthlyRate, t.emi, k);
            && (Total(OvershootOf, Rows(t, k)) == 0 <==> u >= 0)
            && (u >= 0 ==> BalanceAfter(t, k) == u)
  {
    if k > 0 {
      OvershootStartsBelowZero(t, k - 1);
      Telescope(t, k - 1);
      TotalAppend(OvershootOf, Rows(t, k - 1), Row(t, k));
      var u := UnclampedBalance(t.principal, t.monthlyRate, t.emi, k - 1);
      if u < 0 {
        InterestIsMonotone(u, 0, t.monthlyRate);
      }
    }
  }

  /** The sums are exact if and only if the recurrence without the clamp is not negative when the last row opens. */
  lemma SumsAreExactIff(principal: int, annualRate: real, tenure: int)
    requires principal > 0 && annualRate >= 0.0 && tenure >= 1
    ensures ScheduleOf(principal, annualRate, tenure).Success?
    ensures var s := ScheduleOf(principal, annualRate, tenure).value;
            && (Total(PaymentOf, s.installments) == s.totalRepayment
                <==> UnclampedBalance(principal, MonthlyRate(annualRate), s.monthlyEmi, tenure - 1) >= 0)
            && (Total(PrincipalOf, s.installments) == principal
                <==> UnclampedBalance(principal, MonthlyRate(annualRate), s.monthlyEmi, tenure - 1) >= 0)
  {
    LoansAreSound(principal, annualRate, tenure);
    var t, exact := TermsOf(principal, annualRate, tenure), UnroundedEmi(principal, annualRate, tenure).value;
    EmiCoversInterest(t, exact, 0);
    OvershootStartsBelowZero(t, tenure - 1);
    TotalAppend(OvershootOf, Rows(t, tenure - 1), Row(t, tenure));
    Conservation(principal, annualRate, tenure);
  }

  lemma {:induction false} UnclampedDrift(p: int, r: real, emi: int, exact: real, k: nat)
    requires r >= 0.0 && emi == RoundHalfEven(exact)
    ensures Within(Geo(1.0 + r, k), UnclampedBalance(p, r, emi, k) as real, ExactBalance(p as real, 1.0 + r, exact, k))
  {
    if k > 0 {
      UnclampedDrift(p, r, emi, exact, k - 1);
      DriftStep(UnclampedBalance(p, r, emi, k - 1), ExactBalance(p as real, 1.0 + r, exact, k - 1),
                r, emi, exact, Geo(1.0 + r, k - 1));
    }
  }

  /** A test on the instalment alone: if one discounted payment covers the drift of the rows before the last,
      both sums are exact. */
  lemma LargePaymentsAreExact(principal: int, annualRate: real, tenure: int)
    requires principal > 0 && annualRate >= 0.0 && tenure >= 1
    requires UnroundedEmi(principal, annualRate, tenure).Success?
    requires var r := MonthlyRate(annualRate);
             Discounted(UnroundedEmi(principal, annualRate, tenure).value, 1.0 + r) >= DriftBound(r, tenure - 1)
    ensures ScheduleOf(principal, annualRate, tenure).Success?
    ensures var s := ScheduleOf(principal, annualRate, tenure).value;
            && Total(PaymentOf, s.installments) == s.totalRepayment
            && Total(PrincipalOf, s.installments) == principal
  {
    LoansAreSound(principal, annualRate, tenure);
    var t := TermsOf(principal, annualRate, tenure);
    assert UnclampedBalance(principal, t.monthlyRate, t.emi, tenure - 1) >= 0 by {
      DriftBoundIsGeo(t.monthlyRate, tenure - 1);
      LastUnclampedBalance(t, UnroundedEmi(principal, annualRate, tenure).value);
    }
    SumsAreExactIff(principal, annualRate, tenure);
  }

  /** The test is met by every loan over one month. */
  lemma OneMonthIsExact(principal: int, annualRate: real)
    requires principal > 0 && annualRate >= 0.0
    ensures UnroundedEmi(principal, annualRate, 1).Success?
    ensures Discounted(UnroundedEmi(principal, annualRate, 1).value, 1.0 + MonthlyRate(annualRate))
         >= DriftBound(MonthlyRate(annualRate), 0)
    ensures ScheduleOf(principal, annualRate, 1).Success?
    ensures var s := ScheduleOf(principal, annualRate, 1).value;
            Total(PaymentOf, s.installments) == s.totalRepayment && Total(PrincipalOf, s.installments) == principal
  {
    var r := MonthlyRate(annualRate);
    LoansAreSound(principal, annualRate, 1);
    DriftBoundIsGeo(r, 0);
    assert Geo(1.0 + r, 0) == 0.0;
    var exact := UnroundedEmi(principal, annualRate, 1).value;
    assert exact > 0.0 by {
      ExactEmiCoversInterest(principal, r, exact, 1);
    }
    DivMono(0.0, exact, 1.0 + r);
    LargePaymentsAreExact(principal, annualRate, 1);
  }

  function Discounted(payment: real, q: real): real
    requires q >= 1.0
  {
    payment / q
  }

  lemma LastExactBalance(p: real, q: real, emi: real, n: nat)
    requires p > 0.0 && q >= 1.0 && n >= 1 && Clears(emi, p, q, n)
    ensures ExactBalance(p, q, emi, n - 1) == Discounted(emi, q)
  {
    ExactBalanceSign(p, q, emi, n, n);
    StepToZero(ExactBalance(p, q, emi, n - 1), q, emi);
  }

  lemma StepToZero(b: real, q: real, emi: real)
    requires q >= 1.0 && ExactStep(b, q, emi) == 0.0
    ensures b == Discounted(emi, q)
  {
    DivIs(emi, q, b);
  }

  lemma LastUnclampedBalance(t: Terms, exact: real)
    requires Sound(t, exact)
    requires Discounted(exact, 1.0 + t.monthlyRate) >= Geo(1.0 + t.monthlyRate, t.tenure - 1)
    ensures UnclampedBalance(t.principal, t.monthlyRate, t.emi, t.tenure - 1) >= 0
  {
    LastExactBalance(t.principal as real, 1.0 + t.monthlyRate, exact, t.tenure);
    UnclampedDrift(t.principal, t.monthlyRate, t.emi, exact, t.tenure - 1);
  }

  lemma {:induction false} InterestFreeBalance(principal: int, emi: int, k: nat)
    ensures UnclampedBalance(principal, 0.0, emi, k) == principal - k * emi
  {
    if k > 0 {
      InterestFreeBalance(principal, emi, k - 1);
      RoundKeepsIntegers(0);
    }
  }

  function InterestFreeEmi(principal: int, tenure: int): int
    requires tenure >= 1
  {
    RoundHalfEven(principal as real / tenure as real)
  }

  lemma InterestFreeTerms(principal: int, tenure: int)
    requires principal > 0 && tenure >= 1
    ensures ScheduleOf(principal, 0.0, tenure).Success?
    ensures ScheduleOf(principal, 0.0, tenure).value.monthlyEmi == InterestFreeEmi(principal, tenure)
  {
  }

  /** At no interest the payments are the stated total if and only if the instalments before the last do not exceed
      the principal; otherwise the borrower pays more. */
  lemma InterestFreeSumsAreExactIff(principal: int, tenure: int)
    requires principal > 0 && tenure >= 1
    ensures ScheduleOf(principal, 0.0, tenure).Success?
    ensures var s := ScheduleOf(principal, 0.0, tenure).value;
            && (Total(PaymentOf, s.installments) == s.totalRepayment
                <==> (tenure - 1) * InterestFreeEmi(principal, tenure) <= principal)
            && Total(PaymentOf, s.installments) >= s.totalRepayment
  {
    InterestFreeTerms(principal, tenure);
    SumsAreExactIff(principal, 0.0, tenure);
    Conservation(principal, 0.0, tenure);
    assert MonthlyRate(0.0) == 0.0;
    InterestFreeBalance(principal, InterestFreeEmi(principal, tenure), tenure - 1);
  }

  lemma ThreeCentsEmi(principal: int, tenure: int)
    requires principal == 3 && tenure == 5
    ensures (tenure - 1) * InterestFreeEmi(principal, tenure) > principal
  {
    assert principal as real / tenure as real == 0.6;
  }

  /** It happens: three cents over five months at no interest cost more than the stated total. */
  lemma ThreeCentsOverFiveMonths(principal: int, tenure: int)
    requires principal == 3 && tenure == 5
    ensures ScheduleOf(principal, 0.0, tenure).Success?
    ensures var s := ScheduleOf(principal, 0.0, tenure).value; Total(PaymentOf, s.installments) > s.totalRepayment
  {
    ThreeCentsEmi(principal, tenure);
    InterestFreeSumsAreExactIff(principal, tenure);
  }
}
