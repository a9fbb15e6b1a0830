/**
The duration arithmetic of src/_common/_chrono.hpp over unbounded counts. A period
is a reduced positive fraction of a second, as ratio<> normalises it (section 20.10.3
of ISO/IEC 14882:2011).
*/
module Durations {
  import opened Arith

  datatype Ratio = Ratio(num: nat, den: nat)

  /** static_gcd_impl */
  function Gcd(a: nat, b: nat): nat
    decreases b
  {
    if b == 0 then a else Gcd(b, a % b)
  }

  /** static_lcm_impl */
  function Lcm(a: nat, b: nat): nat
    requires a > 0 && b > 0
  {
    GcdDivides(a, b);
    a / Gcd(a, b) * b
  }

  /** ratio<num, den>::type */
  function Reduced(num: nat, den: nat): Ratio
    requires num > 0 && den > 0
  {
    GcdDivides(num, den);
    Ratio(num / Gcd(num, den), den / Gcd(num, den))
  }

  predicate IsPeriod(p: Ratio) {
    p.num > 0 && p.den > 0 && Gcd(p.num, p.den) == 1
  }

  /** common_type of two durations has this period. */
  function CommonPeriod(p: Ratio, q: Ratio): Ratio
    requires IsPeriod(p) && IsPeriod(q)
  {
    GcdDivides(p.num, q.num);
    GcdDivides(p.den, q.den);
    LcmIsMultiple(p.den, q.den);
    Reduced(Gcd(p.num, q.num), Lcm(p.den, q.den))
  }

  /** ratio_divide<p, q>::type */
  function Quotient(p: Ratio, q: Ratio): Ratio
    requires p.num > 0 && p.den > 0 && q.num > 0 && q.den > 0
  {
    Positive(p.num, q.den);
    Positive(p.den, q.num);
    Reduced(p.num * q.den, p.den * q.num)
  }

  /** Integer division in C++ discards the fraction. */
  function TruncDiv(a: int, b: nat): int
    requires b > 0
  {
    if a >= 0 then a / b else -((-a) / b)
  }

  /** The four specialisations of duration_cast_helper. */
  function CastBy(count: int, r: Ratio): int
    requires r.den > 0
  {
    if r.num == 1 && r.den == 1 then count
    else if r.den == 1 then count * r.num
    else if r.num == 1 then TruncDiv(count, r.den)
    else TruncDiv(count * r.num, r.den)
  }

  /** duration_cast from period p to period q. */
  function Cast(count: int, p: Ratio, q: Ratio): int
    requires p.num > 0 && p.den > 0 && q.num > 0 && q.den > 0
  {
    ReducedIsPeriod(p.num, p.den, q);
    CastBy(count, Quotient(p, q))
  }

  /** duration_less: equal periods compare counts, others are converted to the common period. */
  function Less(c: int, p: Ratio, d: int, q: Ratio): bool
    requires IsPeriod(p) && IsPeriod(q)
  {
    if p == q then c < d
    else
      CommonIsPeriod(p, q);
      Cast(c, p, CommonPeriod(p, q)) < Cast(d, q, CommonPeriod(p, q))
  }

  function Equal(c: int, p: Ratio, d: int, q: Ratio): bool
    requires IsPeriod(p) && IsPeriod(q)
  {
    if p == q then c == d
    else
      CommonIsPeriod(p, q);
      Cast(c, p, CommonPeriod(p, q)) == Cast(d, q, CommonPeriod(p, q))
  }

  /** The count of the sum of two durations, in the common period. */
  function Sum(c: int, p: Ratio, d: int, q: Ratio): int
    requires IsPeriod(p) && IsPeriod(q)
  {
    CommonIsPeriod(p, q);
    Cast(c, p, CommonPeriod(p, q)) + Cast(d, q, CommonPeriod(p, q))
  }

  // Multiples and greatest common divisors

  lemma Positive(a: nat, b: nat)
    requires a > 0 && b > 0
    ensures a * b > 0
  {
  }

  lemma NotNegative(a: nat, b: nat)
    ensures a * b >= 0
  {
  }

  lemma MultipleHasNoRest(k: nat, g: nat)
    requires g > 0
    ensures k * g % g == 0 && k * g / g == k
  {
    DivUnique(k * g, g, k, 0);
  }

  /** a is the multiple of g with this factor. */
  lemma FactorIsQuotient(a: nat, k: nat, g: nat)
    requires g > 0 && a == k * g
    ensures a / g == k && a == a / g * g
  {
    MultipleHasNoRest(k, g);
  }

  lemma RemainderStep(a: nat, b: nat, g: nat)
    requires b > 0 && g > 0 && b == b / g * g && a % b == a % b / g * g
    ensures a == a / g * g
  {
    var q, k, s := a / b, b / g, a % b / g;
    assert a == q * b + a % b;
    RemainderAlgebra(q, k, s, g);
    FactorIsQuotient(a, q * k + s, g);
  }

  lemma RemainderAlgebra(q: nat, k: nat, s: nat, g: nat)
    ensures q * k >= 0 && q * (k * g) + s * g == (q * k + s) * g
  {
  }

  /** The quotients of a and b by their greatest common divisor. */
  lemma {:induction false} GcdDivides(a: nat, b: nat)
    requires a > 0 || b > 0
    ensures Gcd(a, b) > 0
    ensures a == a / Gcd(a, b) * Gcd(a, b) && b == b / Gcd(a, b) * Gcd(a, b)
    decreases b
  {
    if b == 0 {
      FactorIsQuotient(a, 1, a);
      FactorIsQuotient(0, 0, a);
    } else {
      GcdDivides(b, a % b);
      RemainderStep(a, b, Gcd(b, a % b));
    }
  }

  /** Bezout: the greatest common divisor is an integer combination. */
  lemma {:induction false} GcdCombination(a: nat, b: nat) returns (x: int, y: int)
    requires a > 0 || b > 0
    ensures a * x + b * y == Gcd(a, b)
    decreases b
  {
    if b == 0 {
      x, y := 1, 0;
    } else {
      var u, v := GcdCombination(b, a % b);
      x, y := v, u - a / b * v;
      var q := a / b;
      assert a == q * b + a % b;
      assert b * u + (a - q * b) * v == a * v + b * (u - q * v);
    }
  }

  lemma LcmIsMultiple(a: nat, b: nat)
    requires a > 0 && b > 0
    ensures Gcd(a, b) > 0 && a / Gcd(a, b) > 0 && b / Gcd(a, b) > 0 && Lcm(a, b) > 0
    ensures Lcm(a, b) == a * (b / Gcd(a, b)) && Lcm(a, b) == b * (a / Gcd(a, b))
  {
    GcdDivides(a, b);
    LcmAlgebra(a / Gcd(a, b), b / Gcd(a, b), Gcd(a, b), a, b);
  }

  lemma LcmAlgebra(i: nat, j: nat, g: nat, a: nat, b: nat)
    requires a == i * g && b == j * g && a > 0 && b > 0
    ensures i > 0 && j > 0 && i * b > 0
    ensures i * b == a * j && i * b == b * i
  {
    assert i * (j * g) == i * g * j;
    assert i == 0 ==> i * g == 0;
    assert j == 0 ==> j * g == 0;
    Positive(i, b);
  }

  /** A fraction whose numerator is a multiple of its denominator reduces to an integer. */
  lemma ReducedMultiple(k: nat, b: nat)
    requires k > 0 && b > 0
    ensures k * b > 0 && Reduced(k * b, b) == Ratio(k, 1)
  {
    Positive(k, b);
    MultipleHasNoRest(k, b);
    assert Gcd(k * b, b) == Gcd(b, 0) == b;
  }

  /** Reducing divides numerator and denominator by one positive number. */
  lemma ReducedFactor(num: nat, den: nat) returns (h: nat)
    requires num > 0 && den > 0
    ensures h > 0 && num == Reduced(num, den).num * h && den == Reduced(num, den).den * h
    ensures Reduced(num, den).num > 0 && Reduced(num, den).den > 0
  {
    h := Gcd(num, den);
    GcdDivides(num, den);
  }

  lemma ReducedIsPeriod(num: nat, den: nat, q: Ratio)
    requires num > 0 && den > 0 && q.num > 0 && q.den > 0
    ensures num * q.den > 0 && den * q.num > 0 && Reduced(num * q.den, den * q.num).den > 0
  {
    Positive(num, q.den);
    Positive(den, q.num);
    var h := ReducedFactor(num * q.den, den * q.num);
  }

  lemma CommonIsPeriod(p: Ratio, q: Ratio)
    requires IsPeriod(p) && IsPeriod(q)
    ensures CommonPeriod(p, q).num > 0 && CommonPeriod(p, q).den > 0
  {
    GcdDivides(p.num, q.num);
    LcmIsMultiple(p.den, q.den);
    var h := ReducedFactor(Gcd(p.num, q.num), Lcm(p.den, q.den));
  }

  // Conversions to the common period are exact

  /** How many common periods one period p has; q is the other period. */
  function Multiple(p: Ratio, q: Ratio): nat
    requires IsPeriod(p) && IsPeriod(q)
  {
    GcdDivides(p.num, q.num);
    GcdDivides(p.den, q.den);
    NotNegative(p.num / Gcd(p.num, q.num), q.den / Gcd(p.den, q.den));
    p.num / Gcd(p.num, q.num) * (q.den / Gcd(p.den, q.den))
  }

  /** p is an exact integer multiple of the common period, so the conversion multiplies by an integer. */
  lemma CommonPeriodDivides(p: Ratio, q: Ratio)
    requires IsPeriod(p) && IsPeriod(q)
    ensures var c := CommonPeriod(p, q);
      && c.num > 0 && c.den > 0
      && Quotient(p, c) == Ratio(Multiple(p, q), 1)
      && p.num * c.den == Multiple(p, q) * (p.den * c.num)
      && Multiple(p, q) > 0
  {
    GcdDivides(p.num, q.num);
    LcmIsMultiple(p.den, q.den);
    var g, l := Gcd(p.num, q.num), Lcm(p.den, q.den);
    var m, e := p.num / g, q.den / Gcd(p.den, q.den);
    var c := CommonPeriod(p, q);
    var h := ReducedFactor(g, l);
    assert p.num == m * g && l == p.den * e;
    Positive(m, e);
    MultipleAlgebra(p.num, p.den, m, e, g, l, c.num, c.den, h);
    Positive(p.den, c.num);
    ReducedMultiple(m * e, p.den * c.num);
  }

  lemma MultipleAlgebra(n: nat, d: nat, m: nat, e: nat, g: nat, l: nat, cn: nat, cd: nat, h: nat)
    requires n == m * g && l == d * e && g == cn * h && l == cd * h && h > 0
    ensures n * cd == m * e * (d * cn)
  {
    assert n * cd == m * (cn * h) * cd == m * cn * (cd * h) == m * cn * (d * e);
    assert m * cn * (d * e) == m * e * (d * cn);
  }

  lemma CastToCommon(c: int, p: Ratio, q: Ratio)
    requires IsPeriod(p) && IsPeriod(q)
    ensures CommonPeriod(p, q).num > 0 && CommonPeriod(p, q).den > 0
    ensures Cast(c, p, CommonPeriod(p, q)) == c * Multiple(p, q)
  {
    CommonPeriodDivides(p, q);
  }

  lemma {:induction false} GcdCommutes(a: nat, b: nat)
    requires a > 0 && b > 0
    ensures Gcd(a, b) == Gcd(b, a)
  {
    if a < b {
      DivUnique(a, b, 0, a);
    } else if b < a {
      DivUnique(b, a, 0, b);
    }
  }

  lemma CommonPeriodCommutes(p: Ratio, q: Ratio)
    requires IsPeriod(p) && IsPeriod(q)
    ensures CommonPeriod(p, q) == CommonPeriod(q, p)
  {
    GcdCommutes(p.num, q.num);
    GcdCommutes(p.den, q.den);
    LcmIsMultiple(p.den, q.den);
    LcmIsMultiple(q.den, p.den);
  }

  /** Both conversions multiply by p / common and q / common; scaled by the same positive number they are the cross products. */
  lemma CrossProducts(p: Ratio, q: Ratio) returns (f: nat, l: nat)
    requires IsPeriod(p) && IsPeriod(q)
    ensures f > 0 && l > 0
    ensures Multiple(p, q) * f == p.num * q.den * l
    ensures Multiple(q, p) * f == q.num * p.den * l
  {
    CommonPeriodDivides(p, q);
    CommonPeriodDivides(q, p);
    CommonPeriodCommutes(p, q);
    var c := CommonPeriod(p, q);
    f := p.den * q.den * c.num;
    l := c.den;
    Positive(p.den, q.den);
    Positive(p.den * q.den, c.num);
    CrossAlgebra(Multiple(p, q), p.num, p.den, q.den, c.num, c.den);
    CrossAlgebra(Multiple(q, p), q.num, q.den, p.den, c.num, c.den);
    assert p.den * q.den == q.den * p.den;
  }

  lemma CrossAlgebra(m: nat, pn: nat, pd: nat, qd: nat, cn: nat, cd: nat)
    requires pn * cd == m * (pd * cn)
    ensures m * (pd * qd * cn) == pn * qd * cd
  {
    assert m * (pd * qd * cn) == m * (pd * cn) * qd;
    assert pn * cd * qd == pn * qd * cd;
  }

  lemma CountAlgebra(c: int, m: nat, f: nat, x: nat, l: nat)
    requires m * f == x * l
    ensures c * m * f == c * x * l
  {
    assert c * m * f == c * (m * f);
    assert c * (x * l) == c * x * l;
  }

  lemma ScaleOrder(a: int, b: int, f: nat)
    requires f > 0
    ensures a < b <==> a * f < b * f
    ensures a == b <==> a * f == b * f
  {
  }

  /** Comparison is the rational order, for all counts of both signs and all periods. */
  lemma ComparisonIsRational(c: int, p: Ratio, d: int, q: Ratio)
    requires IsPeriod(p) && IsPeriod(q)
    ensures Less(c, p, d, q) <==> c * (p.num * q.den) < d * (q.num * p.den)
    ensures Equal(c, p, d, q) <==> c * (p.num * q.den) == d * (q.num * p.den)
  {
    if p == q {
      Positive(p.num, q.den);
      ScaleOrder(c, d, p.num * q.den);
    } else {
      CastToCommon(c, p, q);
      CastToCommon(d, q, p);
      CommonPeriodCommutes(p, q);
      var f, l := CrossProducts(p, q);
      CompareScaled(c, Multiple(p, q), p.num * q.den, d, Multiple(q, p), q.num * p.den, f, l);
    }
  }

  lemma CompareScaled(c: int, m: nat, x: nat, d: int, n: nat, y: nat, f: nat, l: nat)
    requires f > 0 && l > 0 && m * f == x * l && n * f == y * l
    ensures c * m < d * n <==> c * x < d * y
    ensures c * m == d * n <==> c * x == d * y
  {
    CountAlgebra(c, m, f, x, l);
    CountAlgebra(d, n, f, y, l);
    ScaleOrder(c * m, d * n, f);
    ScaleOrder(c * x, d * y, l);
  }

  /** operator+ is exact: the sum in common periods is the sum of the two rationals. */
  lemma SumIsExact(c: int, p: Ratio, d: int, q: Ratio)
    requires IsPeriod(p) && IsPeriod(q)
    ensures var m := CommonPeriod(p, q);
      Sum(c, p, d, q) * (p.den * q.den * m.num) == (c * (p.num * q.den) + d * (q.num * p.den)) * m.den
  {
    CastToCommon(c, p, q);
    CastToCommon(d, q, p);
    CommonPeriodCommutes(p, q);
    CommonPeriodDivides(p, q);
    CommonPeriodDivides(q, p);
    var m := CommonPeriod(p, q);
    CrossAlgebra(Multiple(p, q), p.num, p.den, q.den, m.num, m.den);
    CrossAlgebra(Multiple(q, p), q.num, q.den, p.den, m.num, m.den);
    assert p.den * q.den == q.den * p.den;
    SumAlgebra(c, Multiple(p, q), p.num * q.den, d, Multiple(q, p), q.num * p.den, p.den * q.den * m.num, m.den);
  }

  lemma SumAlgebra(c: int, m: nat, x: nat, d: int, n: nat, y: nat, f: nat, l: nat)
    requires m * f == x * l && n * f == y * l
    ensures (c * m + d * n) * f == (c * x + d * y) * l
  {
    CountAlgebra(c, m, f, x, l);
    CountAlgebra(d, n, f, y, l);
    assert (c * m + d * n) * f == c * m * f + d * n * f;
    assert (c * x + d * y) * l == c * x * l + d * y * l;
  }

  // The common period is the greatest one

  /** a and b have no common divisor but one: some combination of them is one. */
  ghost predicate Coprime(a: nat, b: nat) {
    exists x: int, y: int :: Combines(a, b, x, y)
  }

  predicate Combines(a: nat, b: nat, x: int, y: int) {
    a * x + b * y == 1
  }

  lemma CoprimeProduct(a: nat, b: nat, c: nat)
    requires Coprime(a, c) && Coprime(b, c)
    ensures Coprime(a * b, c) && Coprime(c, a * b)
  {
    var x, y :| Combines(a, c, x, y);
    var u, v :| Combines(b, c, u, v);
    var s, t := x * u, a * x * v + y * b * u + c * y * v;
    assert (a * x + c * y) * (b * u + c * v) == a * b * s + c * t;
    assert Combines(a * b, c, s, t);
    assert Combines(c, a * b, t, s);
  }

  lemma CoprimeQuotients(a: nat, b: nat)
    requires a > 0 && b > 0
    ensures Gcd(a, b) > 0 && Coprime(a / Gcd(a, b), b / Gcd(a, b)) && Coprime(b / Gcd(a, b), a / Gcd(a, b))
  {
    GcdDivides(a, b);
    var x, y := GcdCombination(a, b);
    var g := Gcd(a, b);
    var i, j := a / g, b / g;
    QuotientCombination(a, b, i, j, x, y, g);
    assert Combines(i, j, x, y) && Combines(j, i, y, x);
  }

  lemma QuotientCombination(a: nat, b: nat, i: nat, j: nat, x: int, y: int, g: nat)
    requires g > 0 && a == i * g && b == j * g && a * x + b * y == g
    ensures i * x + j * y == 1
  {
    assert i * g * x + j * g * y == (i * x + j * y) * g;
    ScaleOrder(i * x + j * y, 1, g);
  }

  /** Divisors of coprime numbers are coprime. */
  lemma CoprimeParts(i: nat, g: nat, j: nat, h: nat)
    requires Gcd(i * g, j * h) == 1 && i * g > 0
    ensures Coprime(i, j)
  {
    var x, y := GcdCombination(i * g, j * h);
    Regroup(i, g, x);
    Regroup(j, h, y);
    assert Combines(i, j, g * x, h * y);
  }

  lemma Regroup(i: int, g: int, x: int)
    ensures i * (g * x) == i * g * x
  {
  }

  /** The two multiples are coprime. */
  lemma MultiplesAreCoprime(p: Ratio, q: Ratio)
    requires IsPeriod(p) && IsPeriod(q)
    ensures Coprime(Multiple(p, q), Multiple(q, p))
  {
    GcdDivides(p.num, q.num);
    GcdDivides(p.den, q.den);
    GcdCommutes(p.num, q.num);
    GcdCommutes(p.den, q.den);
    var g, k := Gcd(p.num, q.num), Gcd(p.den, q.den);
    var m, n := p.num / g, q.num / g;
    var d, e := p.den / k, q.den / k;
    CoprimeQuotients(p.num, q.num);
    CoprimeQuotients(p.den, q.den);
    CoprimeParts(m, g, d, k);
    CoprimeParts(n, g, e, k);
    CoprimeSwap(n, e);
    CoprimeProduct(m, e, n);
    CoprimeProduct(m, e, d);
    CoprimeSwap(m * e, n);
    CoprimeSwap(m * e, d);
    CoprimeProduct(n, d, m * e);
  }

  lemma CoprimeSwap(a: nat, b: nat)
    requires Coprime(a, b)
    ensures Coprime(b, a)
  {
    var x, y :| Combines(a, b, x, y);
    assert Combines(b, a, y, x);
  }

  /**
    The common period is the greatest: any period a/b that divides both p and q (j and k times) divides
    the common period.
  */
  lemma CommonPeriodIsGreatest(p: Ratio, q: Ratio, a: nat, b: nat, j: int, k: int) returns (i: int)
    requires IsPeriod(p) && IsPeriod(q) && a > 0 && b > 0
    requires p.num * b == j * a * p.den && q.num * b == k * a * q.den
    ensures CommonPeriod(p, q).num * b == i * a * CommonPeriod(p, q).den
  {
    MultiplesAreCoprime(p, q);
    var s, t := Multiple(p, q), Multiple(q, p);
    var x, y :| Combines(s, t, x, y);
    CommonPeriodDivides(p, q);
    CommonPeriodDivides(q, p);
    CommonPeriodCommutes(p, q);
    var c := CommonPeriod(p, q);
    ScaledMultiple(p, c, s, a, b, j);
    ScaledMultiple(q, c, t, a, b, k);
    i := j * x + k * y;
    CombinationAlgebra(s, t, x, y, c.num * b, j, k, a, c.den);
  }

  lemma CombinationAlgebra(s: nat, t: nat, x: int, y: int, w: int, j: int, k: int, a: nat, cd: nat)
    requires s * x + t * y == 1 && s * w == j * a * cd && t * w == k * a * cd
    ensures w == (j * x + k * y) * a * cd
  {
    assert w == (s * x + t * y) * w == s * w * x + t * w * y;
    assert j * a * cd * x + k * a * cd * y == (j * x + k * y) * a * cd;
  }

  /** p is s times c and j times a/b. */
  lemma ScaledMultiple(p: Ratio, c: Ratio, s: nat, a: nat, b: nat, j: int)
    requires p.den > 0
    requires p.num * c.den == s * (p.den * c.num) && p.num * b == j * a * p.den
    ensures s * (c.num * b) == j * a * c.den
  {
    assert s * (c.num * b) * p.den == s * (p.den * c.num) * b == p.num * c.den * b == p.num * b * c.den == j * a * p.den * c.den;
    assert j * a * p.den * c.den == j * a * c.den * p.den;
    ScaleOrder(s * (c.num * b), j * a * c.den, p.den);
  }

  // duration_cast and ceil

  lemma TruncBounds(a: int, b: nat)
    requires b > 0
    ensures a >= 0 ==> TruncDiv(a, b) * b <= a < (TruncDiv(a, b) + 1) * b
    ensures a < 0 ==> (TruncDiv(a, b) - 1) * b < a <= TruncDiv(a, b) * b
  {
    if a < 0 {
      var k := (-a) / b;
      assert -a == k * b + (-a) % b;
    } else {
      assert a == a / b * b + a % b;
    }
  }

  /** The truncated quotient is the only integer between the quotient and zero that is less than one away. */
  lemma TruncIsUnique(a: int, b: nat, t: int)
    requires b > 0
    requires if a >= 0 then t * b <= a < (t + 1) * b else (t - 1) * b < a <= t * b
    ensures t == TruncDiv(a, b)
  {
    TruncBounds(a, b);
    var u := TruncDiv(a, b);
    if a >= 0 {
      ScaleOrder(t, u + 1, b);
      ScaleOrder(u, t + 1, b);
    } else {
      ScaleOrder(t - 1, u, b);
      ScaleOrder(u - 1, t, b);
    }
  }

  lemma TruncScales(a: int, b: nat, h: nat)
    requires b > 0 && h > 0
    ensures b * h > 0 && TruncDiv(a * h, b * h) == TruncDiv(a, b)
  {
    Positive(b, h);
    TruncBounds(a, b);
    var t := TruncDiv(a, b);
    ScaleOrder(t * b, a, h);
    ScaleOrder(a, t * b, h);
    ScaleOrder(a, (t + 1) * b, h);
    ScaleOrder((t - 1) * b, a, h);
    assert t * (b * h) == t * b * h && (t + 1) * (b * h) == (t + 1) * b * h && (t - 1) * (b * h) == (t - 1) * b * h;
    assert a >= 0 <==> a * h >= 0;
    TruncIsUnique(a * h, b * h, t);
  }

  /** All four specialisations compute the truncated product with the exact, unreduced ratio of the periods. */
  lemma CastTruncates(count: int, p: Ratio, q: Ratio)
    requires IsPeriod(p) && IsPeriod(q)
    ensures p.den * q.num > 0 && Cast(count, p, q) == TruncDiv(count * (p.num * q.den), p.den * q.num)
  {
    Positive(p.num, q.den);
    Positive(p.den, q.num);
    var r := Quotient(p, q);
    var h := ReducedFactor(p.num * q.den, p.den * q.num);
    TruncScales(count * r.num, r.den, h);
    assert count * r.num * h == count * (r.num * h);
    assert CastBy(count, r) == TruncDiv(count * r.num, r.den);
  }

  /** ceil<q>(count p): the least number of q-periods that is not below the duration, for both signs. */
  method Ceil(count: int, p: Ratio, q: Ratio) returns (casted: int)
    requires IsPeriod(p) && IsPeriod(q)
    ensures !Less(casted, q, count, p)
    ensures forall k :: k < casted ==> Less(k, q, count, p)
  {
    CastTruncates(count, p, q);
    casted := Cast(count, p, q);
    ghost var t := casted;
    if Less(casted, q, count, p) {
      casted := casted + 1;
    }
    CeilIsLeast(count, p, q, t, casted);
  }

  lemma CeilIsLeast(count: int, p: Ratio, q: Ratio, t: int, r: int)
    requires IsPeriod(p) && IsPeriod(q) && p.den * q.num > 0
    requires t == TruncDiv(count * (p.num * q.den), p.den * q.num)
    requires r == if Less(t, q, count, p) then t + 1 else t
    ensures !Less(r, q, count, p)
    ensures forall k :: k < r ==> Less(k, q, count, p)
  {
    var a, b := count * (p.num * q.den), p.den * q.num;
    TruncBounds(a, b);
    LessScaled(t, q, count, p, a, b);
    LessScaled(r, q, count, p, a, b);
    CeilBounds(a, b, t, r, r - 1);
    forall k | k < r ensures Less(k, q, count, p) {
      LessScaled(k, q, count, p, a, b);
      CeilBounds(a, b, t, r, k);
    }
  }

  lemma LessScaled(k: int, q: Ratio, count: int, p: Ratio, a: int, b: nat)
    requires IsPeriod(p) && IsPeriod(q)
    requires a == count * (p.num * q.den) && b == p.den * q.num
    ensures Less(k, q, count, p) <==> k * b < a
  {
    ComparisonIsRational(k, q, count, p);
  }

  lemma CeilBounds(a: int, b: nat, t: int, r: int, k: int)
    requires b > 0 && k < r
    requires if a >= 0 then t * b <= a < (t + 1) * b else (t - 1) * b < a <= t * b
    requires r == if t * b < a then t + 1 else t
    ensures r * b >= a
    ensures k * b < a
  {
    assert (t - 1) * b == t * b - b;
    MulMonotone(k, r - 1, b);
  }
}
