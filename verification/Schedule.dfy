/** The amortization schedule: the loop that builds it, and what its rows add up to. */
module Schedule {
  import opened Wrappers
  import opened Rounding
  import opened Annuity
  import opened Emi

  datatype Installment = Installment(
    number: int, openingBalance: int, emiAmount: int,
    principalComponent: int, interestComponent: int, closingBalance: int)

  datatype RepaymentSchedule = RepaymentSchedule(
    principal: int, annualRate: real, tenure: int, monthlyEmi: int,
    totalInterest: int, totalRepayment: int, installments: seq<Installment>)

  /** What stays fixed while the loop runs. */
  datatype Terms = Terms(principal: int, monthlyRate: real, emi: int, tenure: int)

  // ---- The schedule as a function -------------------------------------------------------------

  function AccruedInterest(balance: int, monthlyRate: real): real {
    balance as real * monthlyRate
  }

  function RoundedInterest(balance: int, monthlyRate: real): int {
    RoundHalfEven(AccruedInterest(balance, monthlyRate))
  }

  /** Row i (from 1) on a given opening balance. */
  function RowOn(t: Terms, i: int, balance: int): Installment {
    if i == t.tenure then
      var interest := if t.emi > balance then t.emi - balance else 0;
      Installment(i, balance, balance + interest, balance, interest, 0)
    else
      var interest := RoundedInterest(balance, t.monthlyRate);
      var closing := balance - (t.emi - interest);
      Installment(i, balance, t.emi, t.emi - interest, interest, if closing < 0 then 0 else closing)
  }

  /** The closing balance of row k; the principal before the first row. */
  function BalanceAfter(t: Terms, k: nat): int {
    if k == 0 then t.principal else RowOn(t, k, BalanceAfter(t, k - 1)).closingBalance
  }

  function Row(t: Terms, i: nat): Installment
    requires i >= 1
  {
    RowOn(t, i, BalanceAfter(t, i - 1))
  }

  function Rows(t: Terms, k: nat): (rows: seq<Installment>)
    ensures |rows| == k
  {
    if k == 0 then [] else Rows(t, k - 1) + [Row(t, k)]
  }

  /** The sum of one column. */
  function Total(column: Installment -> int, rows: seq<Installment>): int {
    if rows == [] then 0 else Total(column, rows[..|rows| - 1]) + column(rows[|rows| - 1])
  }

  function PrincipalOf(row: Installment): int { row.principalComponent }

  function InterestOf(row: Installment): int { row.interestComponent }

  function PaymentOf(row: Installment): int { row.emiAmount }

  /** What a clamped row repays beyond the balance it opened with. */
  function OvershootOf(row: Installment): int {
    if row.principalComponent > row.openingBalance then row.principalComponent - row.openingBalance else 0
  }

  lemma TotalAppend(column: Installment -> int, rows: seq<Installment>, row: Installment)
    ensures Total(column, rows + [row]) == Total(column, rows) + column(row)
  {
    assert (rows + [row])[..|rows|] == rows;
  }

  function ScheduleOf(principal: int, annualRate: real, tenure: int): Result<RepaymentSchedule, EmiError> {
    var emi :- CalculateEmi(principal, annualRate, tenure);
    var t := Terms(principal, MonthlyRate(annualRate), emi, tenure);
    var n := if tenure < 0 then 0 else tenure;
    var interest := Total(InterestOf, Rows(t, n));
    Success(RepaymentSchedule(principal, annualRate, tenure, emi, interest, principal + interest, Rows(t, n)))
  }

  lemma RowsGrow(t: Terms, i: nat, row: Installment)
    requires i >= 1 && row == RowOn(t, i, BalanceAfter(t, i - 1))
    ensures Rows(t, i) == Rows(t, i - 1) + [row] && BalanceAfter(t, i) == row.closingBalance
    ensures Total(InterestOf, Rows(t, i)) == Total(InterestOf, Rows(t, i - 1)) + row.interestComponent
  {
    TotalAppend(InterestOf, Rows(t, i - 1), row);
  }

  // ---- The loop -------------------------------------------------------------------------------

  method AmortizeRows(t: Terms) returns (installments: seq<Installment>, totalInterest: int)
    ensures installments == Rows(t, if t.tenure < 0 then 0 else t.tenure)
    ensures totalInterest == Total(InterestOf, installments)
  {
    installments := [];
    var balance := t.principal;
    totalInterest := 0;
    var i := 1;
    while i <= t.tenure
      invariant 1 <= i && (i <= t.tenure + 1 || i == 1)
      invariant balance == BalanceAfter(t, i - 1)
      invariant installments == Rows(t, i - 1)
      invariant totalInterest == Total(InterestOf, installments)
    {
      var interestComponent := RoundedInterest(balance, t.monthlyRate);
      var principalComponent := t.emi - interestComponent;
      var emiAmount;
      if i == t.tenure {
        principalComponent := balance;
        interestComponent := if t.emi > principalComponent then t.emi - principalComponent else 0;
        emiAmount := principalComponent + interestComponent;
      } else {
        emiAmount := t.emi;
      }
      var closingBalance := balance - principalComponent;
      if closingBalance < 0 {
        closingBalance := 0;
      }
      var row := Installment(i, balance, emiAmount, principalComponent, interestComponent, closingBalance);
      assert row == RowOn(t, i, balance);
      RowsGrow(t, i, row);
      installments := installments + [row];
      totalInterest := totalInterest + interestComponent;
      balance := closingBalance;
      i := i + 1;
    }
  }

  method GenerateRepaymentSchedule(principal: int, annualRate: real, tenure: int)
    returns (schedule: Result<RepaymentSchedule, EmiError>)
    ensures schedule == ScheduleOf(principal, annualRate, tenure)
  {
    var monthlyRate := MonthlyRate(annualRate);
    var emi :- CalculateEmi(principal, annualRate, tenure);
    var installments, totalInterest := AmortizeRows(Terms(principal, monthlyRate, emi, tenure));
    return Success(RepaymentSchedule(principal, annualRate, tenure, emi,
                                     totalInterest, principal + totalInterest, installments));
  }

  // ---- What the schedule is measured against ----------------------------------------------------

  function ExactStep(b: real, q: real, emi: real): real {
    b * q - emi
  }

  /** Exact amortization: nothing is rounded and nothing is clamped. */
  function ExactBalance(p: real, q: real, emi: real, k: nat): real {
    if k == 0 then p else ExactStep(ExactBalance(p, q, emi, k - 1), q, emi)
  }

  /** Two balances at most g apart. */
  predicate Within(g: real, a: real, b: real) {
    -g <= a - b <= g
  }

  /** ((1+r)^k - 1) / r cents, or k cents at a zero rate. */
  function DriftBound(r: real, k: nat): real
    requires r >= 0.0
  {
    if r == 0.0 then k as real else (Pow(1.0 + r, k) - 1.0) / r
  }

  lemma DriftBoundIsGeo(r: real, k: nat)
    requires r >= 0.0
    ensures DriftBound(r, k) == Geo(1.0 + r, k)
  {
    if r == 0.0 {
      UnitPowers(k);
    } else {
      GeoClosedForm(1.0 + r, k);
    }
  }

  /** p * f - emi * s. */
  function ClosedForm(p: real, f: real, emi: real, s: real): real {
    p * f - emi * s
  }

  lemma ClosedFormStep(p: real, q: real, f: real, emi: real, s: real)
    ensures ExactStep(ClosedForm(p, f, emi, s), q, emi) == ClosedForm(p, q * f, emi, GeoStep(q, s))
  {
  }

  lemma {:induction false} ExactBalanceClosedForm(p: real, q: real, emi: real, k: nat)
    ensures ExactBalance(p, q, emi, k) == ClosedForm(p, Pow(q, k), emi, Geo(q, k))
  {
    if k > 0 {
      ExactBalanceClosedForm(p, q, emi, k - 1);
      ClosedFormStep(p, q, Pow(q, k - 1), emi, Geo(q, k - 1));
    }
  }

  /** A payment clears (p, q, n) when it is worth p over n months; the unrounded instalment does. */
  predicate Clears(emi: real, p: real, q: real, n: nat) {
    emi * Geo(q, n) == p * Pow(q, n)
  }

  lemma UnroundedEmiClears(principal: int, annualRate: real, tenure: nat)
    requires annualRate >= 0.0 && tenure >= 1
    ensures UnroundedEmi(principal, annualRate, tenure).Success?
    ensures Clears(UnroundedEmi(principal, annualRate, tenure).value,
                   principal as real, 1.0 + MonthlyRate(annualRate), tenure)
  {
    EmiFormulaIsAnnuity(principal, annualRate, tenure);
    AnnuityTimesGeo(principal as real, 1.0 + MonthlyRate(annualRate), tenure);
  }

  /** With k of n payments made, what is owed is the present value of the n - k to come:
      the balance times 1 + ... + q^(n-1) is p * q^k * (1 + ... + q^(n-k-1)). */
  lemma ExactBalanceIsWhatRemains(p: real, q: real, emi: real, k: nat, n: nat)
    requires k <= n && Clears(emi, p, q, n)
    ensures IsWhatRemains(ExactBalance(p, q, emi, k), Geo(q, n), p, Pow(q, k), Geo(q, n - k))
  {
    ExactBalanceClosedForm(p, q, emi, k);
    PowAdd(q, k, n - k);
    GeoAdd(q, n - k, k);
    assert k + (n - k) == n && (n - k) + k == n;
    RemainsAlgebra(p, emi, ExactBalance(p, q, emi, k), Pow(q, k), Geo(q, k),
                   Pow(q, n - k), Geo(q, n - k), Pow(q, n), Geo(q, n));
  }

  predicate IsWhatRemains(b: real, s: real, p: real, f: real, s': real) {
    b * s == p * (f * s')
  }

  lemma RemainsAlgebra(p: real, emi: real, b: real, f: real, s: real, f': real, s': real, fn: real, sn: real)
    requires b == ClosedForm(p, f, emi, s) && emi * sn == p * fn
    requires MulAdd(fn, f, f', 0.0) && MulAdd(sn, f', s, s')
    ensures IsWhatRemains(b, sn, p, f, s')
  {
    assert b * sn == p * (f * sn) - s * (emi * sn);
    assert s * (emi * sn) == p * (f * (f' * s));
    assert f * sn == f * (f' * s) + f * s';
  }

  lemma ExactBalanceSign(p: real, q: real, emi: real, k: nat, n: nat)
    requires p > 0.0 && q >= 1.0 && 1 <= n && k <= n && Clears(emi, p, q, n)
    ensures k < n ==> ExactBalance(p, q, emi, k) > 0.0
    ensures k == n ==> ExactBalance(p, q, emi, k) == 0.0
  {
    ExactBalanceIsWhatRemains(p, q, emi, k, n);
    PowAtLeastOne(q, k);
    GeoAtLeastCount(q, n);
    GeoAtLeastCount(q, n - k);
    SignOfFactor(ExactBalance(p, q, emi, k), Geo(q, n), p, Pow(q, k), Geo(q, n - k));
  }

  lemma SignOfFactor(b: real, s: real, p: real, f: real, s': real)
    requires s > 0.0 && p > 0.0 && f > 0.0 && s' >= 0.0 && IsWhatRemains(b, s, p, f, s')
    ensures s' > 0.0 ==> b > 0.0
    ensures s' == 0.0 ==> b == 0.0
  {
    CompareByFactor(0.0, b, s);
    CompareByFactor(b, 0.0, s);
    assert s' > 0.0 ==> f * s' > 0.0;
    assert s' > 0.0 ==> p * (f * s') > 0.0;
  }

  /** The instalment formula is right: unrounded, it leaves something to pay before the last month and
      nothing after it, and every balance on the way has the textbook closed form. */
  lemma ExactAmortization(principal: int, annualRate: real, tenure: nat, k: nat)
    requires principal > 0 && annualRate >= 0.0 && 1 <= tenure && k <= tenure
    ensures UnroundedEmi(principal, annualRate, tenure).Success?
    ensures var emi := UnroundedEmi(principal, annualRate, tenure).value;
            var r := MonthlyRate(annualRate);
            var b := ExactBalance(principal as real, 1.0 + r, emi, k);
            && b == ClosedForm(principal as real, Pow(1.0 + r, k), emi, DriftBound(r, k))
            && (k < tenure ==> b > 0.0)
            && (k == tenure ==> b == 0.0)
  {
    var p, r := principal as real, MonthlyRate(annualRate);
    UnroundedEmiClears(principal, annualRate, tenure);
    var emi := UnroundedEmi(principal, annualRate, tenure).value;
    ExactBalanceSign(p, 1.0 + r, emi, k, tenure);
    ExactBalanceClosedForm(p, 1.0 + r, emi, k);
    DriftBoundIsGeo(r, k);
  }
}
