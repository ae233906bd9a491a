/** Powers of the monthly growth factor and the geometric sums built from them. */
module Annuity {
  function Pow(q: real, n: nat): (p: real)
    ensures q != 0.0 ==> p != 0.0
  {
    if n == 0 then 1.0 else q * Pow(q, n - 1)
  }

  /** 1 + q + ... + q^(n-1). */
  function Geo(q: real, n: nat): real {
    if n == 0 then 0.0 else GeoStep(q, Geo(q, n - 1))
  }

  function GeoStep(q: real, g: real): real {
    q * g + 1.0
  }

  lemma TimesAtLeastOne(a: real, x: real)
    requires a >= 0.0 && x >= 1.0
    ensures a * x >= a
  {
    assert a * x - a == a * (x - 1.0);
  }

  lemma {:induction false} PowAtLeastOne(q: real, n: nat)
    requires q >= 1.0
    ensures Pow(q, n) >= 1.0
    ensures n >= 1 ==> Pow(q, n) >= q
  {
    if n > 0 {
      PowAtLeastOne(q, n - 1);
      TimesAtLeastOne(q, Pow(q, n - 1));
    }
  }

  lemma {:induction false} GeoAtLeastCount(q: real, n: nat)
    requires q >= 1.0
    ensures Geo(q, n) >= n as real
  {
    if n > 0 {
      GeoAtLeastCount(q, n - 1);
      MulMono(Geo(q, n - 1), 1.0, q);
    }
  }

  lemma ClosedFormAlgebra(q: real, p: real, g: real)
    requires p - 1.0 == (q - 1.0) * g
    ensures q * p - 1.0 == (q - 1.0) * GeoStep(q, g)
  {
    assert q * (p - 1.0) == q * ((q - 1.0) * g) == (q - 1.0) * (q * g);
  }

  /** The closed form: q^n - 1 = (q - 1)(1 + q + ... + q^(n-1)). */
  lemma {:induction false} GeoClosedForm(q: real, n: nat)
    ensures Pow(q, n) - 1.0 == (q - 1.0) * Geo(q, n)
  {
    if n > 0 {
      GeoClosedForm(q, n - 1);
      ClosedFormAlgebra(q, Pow(q, n - 1), Geo(q, n - 1));
    }
  }

  /** c = a * b + d, kept as a predicate so that the products inside it are compared argument by argument. */
  predicate MulAdd(c: real, a: real, b: real, d: real) {
    c == a * b + d
  }

  lemma {:induction false} PowAdd(q: real, m: nat, n: nat)
    ensures MulAdd(Pow(q, m + n), Pow(q, m), Pow(q, n), 0.0)
  {
    if m > 0 {
      PowAdd(q, m - 1, n);
      assert q * (Pow(q, m - 1) * Pow(q, n)) == (q * Pow(q, m - 1)) * Pow(q, n);
    } else {
      assert m + n == n && Pow(q, m) == 1.0;
    }
  }

  lemma GeoAddAlgebra(q: real, c: real, a: real, b: real, d: real)
    requires MulAdd(c, a, b, d)
    ensures MulAdd(GeoStep(q, c), q * a, b, GeoStep(q, d))
  {
    assert q * (a * b) == (q * a) * b;
  }

  lemma {:induction false} GeoAdd(q: real, m: nat, n: nat)
    ensures MulAdd(Geo(q, m + n), Pow(q, m), Geo(q, n), Geo(q, m))
  {
    if m > 0 {
      GeoAdd(q, m - 1, n);
      GeoAddAlgebra(q, Geo(q, m - 1 + n), Pow(q, m - 1), Geo(q, n), Geo(q, m - 1));
    } else {
      assert m + n == n && Pow(q, m) == 1.0 && Geo(q, m) == 0.0;
    }
  }

  lemma MulMono(a: real, x: real, y: real)
    requires a >= 0.0 && x <= y
    ensures a * x <= a * y && x * a <= y * a
  {
  }

  lemma DivMono(x: real, y: real, d: real)
    requires d > 0.0 && x <= y
    ensures x / d <= y / d
  {
  }

  lemma DivIs(x: real, d: real, c: real)
    requires d != 0.0 && c * d == x
    ensures x / d == c
  {
  }
}
