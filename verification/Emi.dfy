/** The two implementations of the monthly instalment (EMI) and the counter-offer options built on one of them. */
module Emi {
  import opened Wrappers
  import opened Rounding
  import opened Annuity

  datatype EmiError = ZeroDivision | NonPositiveMonths

  function MonthlyRate(annualRate: real): real {
    annualRate / 1200.0
  }

  /** `base ** n`: a negative power of zero is a division by zero. */
  function IntegerPower(base: real, n: int): Result<real, EmiError> {
    if n >= 0 then Success(Pow(base, n))
    else if base == 0.0 then Failure(ZeroDivision)
    else Success(1.0 / Pow(base, -n))
  }

  /** P * r * (1+r)^n / ((1+r)^n - 1), given the factor (1+r)^n. */
  function EmiFormula(p: real, r: real, factor: real): real
    requires factor != 1.0
  {
    p * r * factor / (factor - 1.0)
  }

  /** The closed form before rounding, in cents. */
  function UnroundedEmi(principal: int, annualRate: real, tenure: int): Result<real, EmiError> {
    if annualRate == 0.0 then
      if tenure == 0 then Failure(ZeroDivision) else Success(principal as real / tenure as real)
    else
      var r := MonthlyRate(annualRate);
      var factor :- IntegerPower(1.0 + r, tenure);
      if factor == 1.0 then Failure(ZeroDivision)
      else Success(EmiFormula(principal as real, r, factor))
  }

  /** The disbursement agent's `calculate_emi`. */
  function CalculateEmi(principal: int, annualRate: real, tenure: int): Result<int, EmiError> {
    var emi :- UnroundedEmi(principal, annualRate, tenure);
    Success(RoundHalfEven(emi))
  }

  /** The orchestrator's `calculate_emi`. */
  function OfferEmi(principal: int, annualRate: real, months: int): Result<int, EmiError> {
    if months <= 0 then Failure(NonPositiveMonths)
    else
      var r := MonthlyRate(annualRate);
      if r == 0.0 then Success(RoundHalfEven(principal as real / months as real))
      else
        var factor :- IntegerPower(1.0 + r, months);
        if factor == 1.0 then Failure(ZeroDivision)
        else Success(RoundHalfEven(EmiFormula(principal as real, r, factor)))
  }

  /** The two implementations give the same answer exactly on the tenures the second one admits:
      below one month only the second one insists on its own error. */
  lemma ImplementationsAgree(principal: int, annualRate: real, tenure: int)
    ensures OfferEmi(principal, annualRate, tenure) == CalculateEmi(principal, annualRate, tenure) <==> tenure >= 1
  {
    assert annualRate == 0.0 <==> MonthlyRate(annualRate) == 0.0;
  }

  /** The present value of one unit paid at the end of each of n months: 1/q + ... + 1/q^n. */
  function PresentValueOfOne(q: real, n: nat): real
    requires q >= 1.0
  {
    if n == 0 then 0.0 else PresentValueOfOne(q, n - 1) + 1.0 / Pow(q, n)
  }

  /** The instalment that repays p in n months when balances grow by q each month. */
  function AnnuityPayment(p: real, q: real, n: nat): real
    requires q >= 1.0 && n >= 1
  {
    GeoAtLeastCount(q, n);
    p * Pow(q, n) / Geo(q, n)
  }

  lemma AnnuityAlgebra(p: real, r: real, f: real, s: real)
    requires f - 1.0 == r * s && s > 0.0 && r > 0.0
    ensures f - 1.0 > 0.0 && EmiFormula(p, r, f) == p * f / s
  {
    var a := p * f / s;
    assert a * s == p * f;
    assert a * (r * s) == r * (a * s);
    DivIs(p * r * f, f - 1.0, a);
  }

  lemma FormulaIsAnnuity(p: real, r: real, n: nat)
    requires r > 0.0 && n >= 1
    ensures Pow(1.0 + r, n) > 1.0
    ensures EmiFormula(p, r, Pow(1.0 + r, n)) == AnnuityPayment(p, 1.0 + r, n)
  {
    GeoAtLeastCount(1.0 + r, n);
    GeoClosedForm(1.0 + r, n);
    AnnuityAlgebra(p, r, Pow(1.0 + r, n), Geo(1.0 + r, n));
  }

  /** For r >= 0 and n >= 1 the formula never fails, whichever branch it takes, and it is the annuity payment. */
  lemma EmiFormulaIsAnnuity(principal: int, annualRate: real, tenure: nat)
    requires annualRate >= 0.0 && tenure >= 1
    ensures UnroundedEmi(principal, annualRate, tenure)
         == Success(AnnuityPayment(principal as real, 1.0 + MonthlyRate(annualRate), tenure))
  {
    var r := MonthlyRate(annualRate);
    if annualRate == 0.0 {
      UnitPowers(tenure);
    } else {
      FormulaIsAnnuity(principal as real, r, tenure);
    }
  }

  lemma {:induction false} UnitPowers(n: nat)
    ensures Pow(1.0, n) == 1.0 && Geo(1.0, n) == n as real
  {
    if n > 0 {
      UnitPowers(n - 1);
    }
  }

  /** With a twelfth of the annual percentage on top. */
  function WithAMonthsShare(p: real, annualRate: real): real {
    p * (1.0 + annualRate / 1200.0)
  }

  lemma GrowsByAMonthsShare(p: real, annualRate: real)
    ensures p * (1.0 + MonthlyRate(annualRate)) == WithAMonthsShare(p, annualRate)
  {
  }

  /** Over one month the principal is repaid with a twelfth of the annual percentage on top. */
  lemma OneMonthPayment(principal: int, annualRate: real, tenure: nat)
    requires annualRate >= 0.0 && tenure == 1
    ensures UnroundedEmi(principal, annualRate, tenure) == Success(WithAMonthsShare(principal as real, annualRate))
    ensures OfferEmi(principal, annualRate, tenure)
         == Success(RoundHalfEven(WithAMonthsShare(principal as real, annualRate)))
  {
    EmiFormulaIsAnnuity(principal, annualRate, tenure);
    ImplementationsAgree(principal, annualRate, tenure);
    var p, q := principal as real, 1.0 + MonthlyRate(annualRate);
    AnnuityOverOne(p, q, tenure);
    GrowsByAMonthsShare(p, annualRate);
    assert AnnuityPayment(p, q, tenure) == WithAMonthsShare(p, annualRate);
  }

  lemma AnnuityOverOne(p: real, q: real, n: nat)
    requires q >= 1.0 && n == 1
    ensures AnnuityPayment(p, q, n) == p * q
  {
    AnnuityTimesGeo(p, q, n);
    assert Pow(q, n) == q * Pow(q, 0) == q;
    assert Geo(q, n) == GeoStep(q, Geo(q, 0)) == 1.0;
  }

  /** Without a month to pay in, one implementation divides by zero and the other refuses. */
  lemma NoMonths(principal: int, annualRate: real, months: int)
    requires months <= 0
    ensures OfferEmi(principal, annualRate, months) == Failure(NonPositiveMonths)
    ensures months == 0 ==> CalculateEmi(principal, annualRate, months) == Failure(ZeroDivision)
  {
  }

  lemma InverseFactor(p: real, r: real, f: real, g: real, s: real)
    requires g != 0.0 && f == 1.0 / g && g - 1.0 == r * s && r > 0.0 && s > 0.0
    ensures f != 1.0 && EmiFormula(p, r, f) == -p / s
  {
    assert f * g == 1.0;
    assert f != 1.0 by {
      assert r * s > 0.0;
    }
    assert (f - 1.0) * g == 1.0 - g == -(r * s);
    var x := -p / s;
    assert x * s == -p;
    assert (x * (f - 1.0)) * g == x * ((f - 1.0) * g) == -(r * (x * s)) == r * p;
    assert (p * r * f) * g == p * r * (f * g) == p * r;
    CancelFactor(x * (f - 1.0), p * r * f, g);
    DivIs(p * r * f, f - 1.0, x);
  }

  /** A negative tenure, which validation lets through, gives a negative instalment. */
  lemma NegativeTenurePayment(principal: int, annualRate: real, n: nat)
    requires annualRate > 0.0 && n >= 1
    ensures Geo(1.0 + annualRate / 1200.0, n) >= 1.0
    ensures UnroundedEmi(principal, annualRate, 0 - n)
         == Success(-(principal as real) / Geo(1.0 + annualRate / 1200.0, n))
  {
    var r := annualRate / 1200.0;
    GeoAtLeastCount(1.0 + r, n);
    GeoClosedForm(1.0 + r, n);
    PowAtLeastOne(1.0 + r, n);
    InverseFactor(principal as real, r, 1.0 / Pow(1.0 + r, n), Pow(1.0 + r, n), Geo(1.0 + r, n));
  }

  lemma AnnuityTimesGeo(p: real, q: real, n: nat)
    requires q >= 1.0 && n >= 1
    ensures Geo(q, n) >= 1.0
    ensures AnnuityPayment(p, q, n) * Geo(q, n) == p * Pow(q, n)
    ensures p > 0.0 ==> AnnuityPayment(p, q, n) > 0.0
    ensures p >= 0.0 ==> AnnuityPayment(p, q, n) >= 0.0
  {
    GeoAtLeastCount(q, n);
    PowAtLeastOne(q, n);
  }

  lemma {:induction false} GeoIsScaledPresentValue(q: real, n: nat)
    requires q >= 1.0
    ensures Geo(q, n) == Pow(q, n) * PresentValueOfOne(q, n)
  {
    if n > 0 {
      GeoIsScaledPresentValue(q, n - 1);
      var f, v := Pow(q, n - 1), PresentValueOfOne(q, n - 1);
      assert Pow(q, n) * (1.0 / Pow(q, n)) == 1.0;
      assert (q * f) * (v + 1.0 / Pow(q, n)) == q * (f * v) + (q * f) * (1.0 / Pow(q, n));
    }
  }

  /** What the payment is for: discounted at the monthly rate, the n payments are worth the principal. */
  lemma PaymentsAreWorthThePrincipal(p: real, q: real, n: nat)
    requires q >= 1.0 && n >= 1
    ensures AnnuityPayment(p, q, n) * PresentValueOfOne(q, n) == p
  {
    AnnuityTimesGeo(p, q, n);
    GeoIsScaledPresentValue(q, n);
    var a, v, f := AnnuityPayment(p, q, n), PresentValueOfOne(q, n), Pow(q, n);
    assert (a * v) * f == a * (f * v) == p * f;
    CancelFactor(a * v, p, f);
  }

  lemma CancelFactor(x: real, y: real, f: real)
    requires f != 0.0 && x * f == y * f
    ensures x == y
  {
  }

  lemma CompareByFactor(a: real, b: real, s: real)
    requires s > 0.0
    ensures a <= b <==> a * s <= b * s
    ensures a < b <==> a * s < b * s
  {
    if a <= b {
      MulMono(s, a, b);
    } else {
      MulMono(s, b, a);
    }
    assert a * s == b * s ==> (a - b) * s == 0.0;
  }

  /** If two payments clear proportional schedules, the one with the larger factor is the smaller. */
  lemma LargerFactorSmallerPayment(a: real, b: real, s: real, t: real)
    requires b >= 0.0 && s > 0.0 && a * s == b * t && s >= t
    ensures a <= b
    ensures b > 0.0 && s > t ==> a < b
  {
    MulMono(b, t, s);
    CompareByFactor(a, b, s);
    if b > 0.0 && s > t {
      assert b * s - b * t == b * (s - t);
      assert b * (s - t) > 0.0;
    }
  }

  lemma OneMoreMonth(p: real, q: real, n: nat)
    requires p >= 0.0 && q >= 1.0 && n >= 1
    ensures AnnuityPayment(p, q, n + 1) <= AnnuityPayment(p, q, n)
    ensures p > 0.0 ==> AnnuityPayment(p, q, n + 1) < AnnuityPayment(p, q, n)
  {
    var a, b, f, s := AnnuityPayment(p, q, n + 1), AnnuityPayment(p, q, n), Pow(q, n), Geo(q, n);
    assert SameProduct(a, GeoStep(q, s), p, q * f) by { AnnuityProduct(p, q, n + 1); }
    assert SameProduct(b, s, p, f) && s >= 1.0 by { AnnuityProduct(p, q, n); }
    assert b >= 0.0 && (p > 0.0 ==> b > 0.0) by { AnnuityTimesGeo(p, q, n); }
    CompareMonths(a, b, p, q, f, s);
  }

  predicate SameProduct(a: real, b: real, c: real, d: real) {
    a * b == c * d
  }

  lemma AnnuityProduct(p: real, q: real, n: nat)
    requires q >= 1.0 && n >= 1
    ensures Geo(q, n) >= 1.0 && SameProduct(AnnuityPayment(p, q, n), Geo(q, n), p, Pow(q, n))
  {
    AnnuityTimesGeo(p, q, n);
  }

  lemma CompareMonths(a: real, b: real, p: real, q: real, f: real, s: real)
    requires SameProduct(a, GeoStep(q, s), p, q * f) && SameProduct(b, s, p, f) && b >= 0.0 && q >= 1.0 && s >= 1.0
    ensures a <= b && (b > 0.0 ==> a < b)
  {
    assert q * (b * s) == b * (q * s) && q * (p * f) == p * (q * f);
    MulMono(s, 1.0, q);
    LargerFactorSmallerPayment(a, b, q * s + 1.0, q * s);
  }

  lemma {:induction false} PaymentFallsWithTenure(p: real, q: real, m: nat, n: nat)
    requires p >= 0.0 && q >= 1.0 && 1 <= m <= n
    ensures AnnuityPayment(p, q, n) <= AnnuityPayment(p, q, m)
    ensures p > 0.0 && m < n ==> AnnuityPayment(p, q, n) < AnnuityPayment(p, q, m)
    decreases n
  {
    if m < n {
      PaymentFallsWithTenure(p, q, m, n - 1);
      OneMoreMonth(p, q, n - 1);
    }
  }

  lemma {:induction false} PowMonotoneInRate(q: real, q': real, n: nat)
    requires 1.0 <= q <= q'
    ensures Pow(q, n) <= Pow(q', n)
  {
    if n > 0 {
      PowMonotoneInRate(q, q', n - 1);
      PowAtLeastOne(q, n - 1);
      MulMono(q, Pow(q, n - 1), Pow(q', n - 1));
      MulMono(Pow(q', n - 1), q, q');
    }
  }

  lemma CrossStep(q: real, q': real, s: real, s': real, f: real, f': real, g: real, g': real)
    requires q >= 0.0 && q' >= 0.0 && s * f' >= s' * f
    requires g == q * f && g' == q' * f' && g' >= g
    ensures (q * s + 1.0) * g' >= (q' * s' + 1.0) * g
  {
    MulMono(q * q', s' * f, s * f');
    assert (q * s + 1.0) * (q' * f') == (q * q') * (s * f') + q' * f';
    assert (q' * s' + 1.0) * (q * f) == (q * q') * (s' * f) + q * f;
  }

  lemma {:induction false} FactorsCrossInRate(q: real, q': real, n: nat)
    requires 1.0 <= q <= q'
    ensures Geo(q, n) * Pow(q', n) >= Geo(q', n) * Pow(q, n)
  {
    if n > 0 {
      FactorsCrossInRate(q, q', n - 1);
      PowMonotoneInRate(q, q', n);
      var g, g' := Pow(q, n), Pow(q', n);
      CrossStep(q, q', Geo(q, n - 1), Geo(q', n - 1), Pow(q, n - 1), Pow(q', n - 1), g, g');
    }
  }

  lemma PaymentRisesWithRate(p: real, q: real, q': real, n: nat)
    requires p >= 0.0 && 1.0 <= q <= q' && n >= 1
    ensures AnnuityPayment(p, q, n) <= AnnuityPayment(p, q', n)
  {
    var a, b := AnnuityPayment(p, q, n), AnnuityPayment(p, q', n);
    var s, s', f, f' := Geo(q, n), Geo(q', n), Pow(q, n), Pow(q', n);
    assert s > 0.0 && a * s == p * f by { AnnuityTimesGeo(p, q, n); }
    assert b >= 0.0 && b * s' == p * f' by { AnnuityTimesGeo(p, q', n); }
    assert f' > 0.0 by { PowAtLeastOne(q', n); }
    assert s * f' >= s' * f by { FactorsCrossInRate(q, q', n); }
    CrossPayments(p, a, b, s, s', f, f');
  }

  lemma CrossPayments(p: real, a: real, b: real, s: real, s': real, f: real, f': real)
    requires a * s == p * f && b * s' == p * f' && b >= 0.0
    requires s > 0.0 && f' > 0.0 && s * f' >= s' * f
    ensures a <= b
  {
    assert a * (s * f') == (a * s) * f' == p * f * f';
    assert b * (s' * f) == (b * s') * f == p * f' * f;
    LargerFactorSmallerPayment(a, b, s * f', s' * f);
  }

  /** The rounded instalment never rises when the tenure grows and never falls when the rate grows. */
  lemma RoundedEmiIsMonotone(principal: int, rate: real, rate': real, tenure: nat, tenure': nat)
    requires principal >= 0 && 0.0 <= rate <= rate' && 1 <= tenure' <= tenure
    ensures CalculateEmi(principal, rate, tenure).Success? && CalculateEmi(principal, rate', tenure').Success?
    ensures CalculateEmi(principal, rate, tenure).value <= CalculateEmi(principal, rate', tenure').value
  {
    EmiFormulaIsAnnuity(principal, rate, tenure);
    EmiFormulaIsAnnuity(principal, rate', tenure');
    var p, q, q' := principal as real, 1.0 + MonthlyRate(rate), 1.0 + MonthlyRate(rate');
    DivMono(rate, rate', 1200.0);
    PaymentFallsWithTenure(p, q, tenure', tenure);
    PaymentRisesWithRate(p, q, q', tenure');
    RoundIsMonotone(AnnuityPayment(p, q, tenure), AnnuityPayment(p, q', tenure'));
  }

  datatype Offer = Offer(offerId: string, principal: int, tenure: int, annualRate: real, monthlyEmi: int, name: string)

  function Max(a: int, b: int): int {
    if a >= b then a else b
  }

  function ShorterTenure(baseTenure: int): int {
    Max(12, baseTenure - 12)
  }

  /** `round(base_rate + 0.5, 2)`: the rate is rounded to hundredths of a percent. */
  function HigherRate(baseRate: real): real {
    RoundHalfEven((baseRate + 0.5) * 100.0) as real / 100.0
  }

  function CounterOffers(amount: int, tenure: int, rate: real): Result<seq<Offer>, EmiError> {
    var recommended :- OfferEmi(amount, rate, tenure);
    var faster :- OfferEmi(amount, rate, ShorterTenure(tenure));
    var longer :- OfferEmi(amount, HigherRate(rate), tenure + 12);
    Success([Offer("offer_1", amount, tenure, rate, recommended, "Recommended"),
             Offer("offer_2", amount, ShorterTenure(tenure), rate, faster, "Pay Faster"),
             Offer("offer_3", amount, tenure + 12, HigherRate(rate), longer, "Lower EMI")])
  }

  /** An offer shows the instalment of its own terms. */
  predicate Quoted(o: Offer, amount: int) {
    o.principal == amount && OfferEmi(amount, o.annualRate, o.tenure) == Success(o.monthlyEmi)
  }

  /** The terms on offer: the base, a year less but never under one, and a year more at half a percent more. */
  lemma OfferTerms(amount: int, tenure: int, rate: real)
    requires CounterOffers(amount, tenure, rate).Success?
    ensures var offers := CounterOffers(amount, tenure, rate).value;
            && |offers| == 3
            && offers[0].offerId == "offer_1" && offers[1].offerId == "offer_2" && offers[2].offerId == "offer_3"
            && offers[0].name == "Recommended" && offers[1].name == "Pay Faster" && offers[2].name == "Lower EMI"
            && offers[0].tenure == tenure && offers[2].tenure == tenure + 12
            && offers[1].tenure == (if tenure >= 24 then tenure - 12 else 12)
            && offers[0].annualRate == rate == offers[1].annualRate
            && offers[2].annualRate == HigherRate(rate)
            && Quoted(offers[0], amount) && Quoted(offers[1], amount) && Quoted(offers[2], amount)
  {
  }

  /** Half a percent more, in whole hundredths of a percent. */
  lemma HigherRateIsHalfMore(rate: real)
    ensures -0.005 <= HigherRate(rate) - (rate + 0.5) <= 0.005
    ensures HigherRate(rate) * 100.0 == (HigherRate(rate) * 100.0).Floor as real
  {
    RoundIsNearest((rate + 0.5) * 100.0);
    Hundredths(RoundHalfEven((rate + 0.5) * 100.0));
  }

  lemma Hundredths(k: int)
    ensures k as real / 100.0 * 100.0 == k as real == (k as real / 100.0 * 100.0).Floor as real
  {
  }

  /** "Pay Faster" is a shorter loan with a higher exact instalment only from a base tenure of one year on;
      from there on its rounded instalment is never below the recommended one, and below one year never above it. */
  lemma PayFasterNeedsAYear(amount: int, tenure: nat, rate: real)
    requires amount > 0 && tenure >= 1 && rate >= 0.0
    ensures CounterOffers(amount, tenure, rate).Success?
    ensures var offers := CounterOffers(amount, tenure, rate).value;
            && (tenure >= 12 ==> offers[1].tenure <= offers[0].tenure && offers[1].monthlyEmi >= offers[0].monthlyEmi)
            && (tenure < 12 ==> offers[1].tenure > offers[0].tenure && offers[1].monthlyEmi <= offers[0].monthlyEmi)
    ensures var q := 1.0 + MonthlyRate(rate);
            AnnuityPayment(amount as real, q, ShorterTenure(tenure)) >= AnnuityPayment(amount as real, q, tenure)
            <==> tenure >= 12
  {
    var shorter := ShorterTenure(tenure);
    var q := 1.0 + MonthlyRate(rate);
    RoundIsMonotone(0.0, (rate + 0.5) * 100.0);
    RoundKeepsIntegers(0);
    DivMono(0.0, RoundHalfEven((rate + 0.5) * 100.0) as real, 100.0);
    ImplementationsAgree(amount, rate, tenure);
    ImplementationsAgree(amount, rate, shorter);
    ImplementationsAgree(amount, HigherRate(rate), tenure + 12);
    EmiFormulaIsAnnuity(amount, rate, tenure);
    EmiFormulaIsAnnuity(amount, rate, shorter);
    EmiFormulaIsAnnuity(amount, HigherRate(rate), tenure + 12);
    if tenure >= 12 {
      PaymentFallsWithTenure(amount as real, q, shorter, tenure);
      RoundedEmiIsMonotone(amount, rate, rate, tenure, shorter);
    } else {
      PaymentFallsWithTenure(amount as real, q, tenure, shorter);
      RoundedEmiIsMonotone(amount, rate, rate, shorter, tenure);
    }
  }
}
