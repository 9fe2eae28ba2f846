/** What a batch costs in a state of the burst search: minus the logarithm of a binomial probability
    (jubatus/core/burst/engine.cpp). */
module BurstLikelihood {

  /** The library functions the source calls. */
  datatype Libm = Libm(lgamma: int -> real, log: real -> real)

  function LogChoose(m: Libm, n: nat, k: nat): real {
    m.lgamma(n + 1) - m.lgamma(k + 1) - m.lgamma(n - k + 1)
  }

  function Sigma(m: Libm, p: real, d: nat, r: nat): real {
    -(LogChoose(m, d, r) + r as real * m.log(p) + (d - r) as real * m.log(1.0 - p))
  }

  // ----- what is asked of log and lgamma

  function Times(x: real, y: real): real {
    x * y
  }

  ghost predicate AddsLogs(log: real -> real, x: real, y: real) {
    x > 0.0 && y > 0.0 ==> log(Times(x, y)) == log(x) + log(y)
  }

  ghost predicate BelowLine(log: real -> real, x: real) {
    x > 0.0 ==> log(x) <= x - 1.0
  }

  ghost predicate IsLog(log: real -> real) {
    log(1.0) == 0.0 && (forall x, y :: AddsLogs(log, x, y)) && forall x :: BelowLine(log, x)
  }

  ghost predicate LgammaStep(m: Libm, n: nat) {
    m.lgamma(n + 2) == m.lgamma(n + 1) + m.log((n + 1) as real)
  }

  ghost predicate IsLgamma(m: Libm) {
    m.lgamma(1) == 0.0 && forall n: nat :: LgammaStep(m, n)
  }

  // ----- the binomial distribution

  ghost function Factorial(n: nat): nat {
    if n == 0 then 1 else n * Factorial(n - 1)
  }

  /** Pascal's triangle: in how many ways k of n documents can be the relevant ones. */
  ghost function Choose(n: nat, k: nat): nat {
    if k == 0 then 1 else if n == 0 then 0 else Choose(n - 1, k - 1) + Choose(n - 1, k)
  }

  ghost function Power(x: real, n: nat): real {
    if n == 0 then 1.0 else Times(x, Power(x, n - 1))
  }

  /** How likely r of d documents are relevant if each is with probability p. */
  ghost function Binomial(p: real, d: nat, r: nat): real
    requires r <= d
  {
    Times(Times(Choose(d, r) as real, Power(p, r)), Power(1.0 - p, d - r))
  }

  lemma {:induction false} FactorialPositive(n: nat)
    ensures Factorial(n) > 0
  {
    if n > 0 {
      FactorialPositive(n - 1);
    }
  }

  lemma {:induction false} ChooseNone(n: nat, k: nat)
    requires n < k
    ensures Choose(n, k) == 0
  {
    if n > 0 {
      ChooseNone(n - 1, k - 1);
      ChooseNone(n - 1, k);
    }
  }

  lemma Regroup(a: int, b: int, k: int, f: int, g: int, l: int)
    ensures (a + b) * (k * f) * (l * g) == k * (a * f * (l * g)) + l * (b * (k * f) * g)
  {
  }

  lemma {:induction false} ChooseFactorials(n: nat, k: nat)
    requires k <= n
    ensures Choose(n, k) * Factorial(k) * Factorial(n - k) == Factorial(n)
  {
    if 0 < k < n {
      ChooseFactorials(n - 1, k - 1);
      ChooseFactorials(n - 1, k);
      Regroup(Choose(n - 1, k - 1), Choose(n - 1, k), k, Factorial(k - 1), Factorial(n - k - 1), n - k);
      SumOfParts(k, n - k, Factorial(n - 1));
    } else if k == n && n > 0 {
      ChooseFactorials(n - 1, n - 1);
      ChooseNone(n - 1, n);
      LastChoice(n, Choose(n - 1, n - 1), Factorial(n - 1));
    }
  }

  lemma SumOfParts(k: int, l: int, f: int)
    ensures k * f + l * f == (k + l) * f
  {
  }

  lemma LastChoice(n: nat, c: nat, f: nat)
    requires c * f * 1 == f
    ensures c * (n * f) * 1 == n * f
  {
    assert c * (n * f) == n * (c * f);
  }

  lemma {:induction false} ChoosePositive(n: nat, k: nat)
    requires k <= n
    ensures Choose(n, k) > 0
  {
    if 0 < k {
      ChoosePositive(n - 1, k - 1);
    }
  }

  lemma Positive(x: real, y: real)
    requires x > 0.0 && y > 0.0
    ensures Times(x, y) > 0.0
  {
  }

  // ----- logarithms of these

  lemma LogTimes(m: Libm, x: real, y: real)
    requires IsLog(m.log) && x > 0.0 && y > 0.0
    ensures Times(x, y) > 0.0 && m.log(Times(x, y)) == m.log(x) + m.log(y)
  {
    Positive(x, y);
    assert AddsLogs(m.log, x, y);
  }

  lemma RealProduct(a: nat, b: nat)
    ensures (a * b) as real == Times(a as real, b as real)
  {
  }

  lemma LogProduct(m: Libm, a: nat, b: nat, c: nat)
    requires IsLog(m.log) && a > 0 && b > 0 && c == a * b
    ensures c > 0 && m.log(c as real) == m.log(a as real) + m.log(b as real)
  {
    RealProduct(a, b);
    LogTimes(m, a as real, b as real);
  }

  lemma {:induction false} LgammaIsLogFactorial(m: Libm, n: nat)
    requires IsLog(m.log) && IsLgamma(m)
    ensures m.lgamma(n + 1) == m.log(Factorial(n) as real)
  {
    if n > 0 {
      LgammaIsLogFactorial(m, n - 1);
      FactorialPositive(n - 1);
      assert LgammaStep(m, n - 1);
      LogProduct(m, n, Factorial(n - 1), Factorial(n));
    }
  }

  lemma LogChooseIsLog(m: Libm, n: nat, k: nat)
    requires IsLog(m.log) && IsLgamma(m) && k <= n
    ensures LogChoose(m, n, k) == m.log(Choose(n, k) as real)
  {
    var c, f, g := Choose(n, k), Factorial(k), Factorial(n - k);
    ChooseFactorials(n, k);
    ChoosePositive(n, k);
    FactorialPositive(k);
    FactorialPositive(n - k);
    LgammaIsLogFactorial(m, n);
    LgammaIsLogFactorial(m, k);
    LgammaIsLogFactorial(m, n - k);
    LogOfThree(m, c, f, g, Factorial(n));
  }

  lemma LogOfThree(m: Libm, a: nat, b: nat, c: nat, n: nat)
    requires IsLog(m.log) && a > 0 && b > 0 && c > 0 && n == a * b * c
    ensures m.log(n as real) == m.log(a as real) + m.log(b as real) + m.log(c as real)
  {
    var ab := a * b;
    LogProduct(m, a, b, ab);
    LogProduct(m, ab, c, n);
  }

  lemma {:induction false} LogPower(m: Libm, x: real, n: nat)
    requires IsLog(m.log) && x > 0.0
    ensures Power(x, n) > 0.0 && m.log(Power(x, n)) == Times(n as real, m.log(x))
  {
    if n > 0 {
      LogPower(m, x, n - 1);
      LogTimes(m, x, Power(x, n - 1));
      OneMoreTime(n, m.log(x));
    }
  }

  lemma OneMoreTime(n: nat, x: real)
    requires n > 0
    ensures x + Times((n - 1) as real, x) == Times(n as real, x)
  {
  }

  lemma LogBinomial(m: Libm, p: real, d: nat, r: nat)
    requires IsLog(m.log) && 0.0 < p < 1.0 && r <= d
    ensures Binomial(p, d, r) > 0.0
    ensures m.log(Binomial(p, d, r))
         == m.log(Choose(d, r) as real) + Times(r as real, m.log(p)) + Times((d - r) as real, m.log(1.0 - p))
  {
    var c, x, y := Choose(d, r) as real, Power(p, r), Power(1.0 - p, d - r);
    ChoosePositive(d, r);
    LogPower(m, p, r);
    LogPower(m, 1.0 - p, d - r);
    LogTimes(m, c, x);
    LogTimes(m, Times(c, x), y);
  }

  /** The cost of a batch is minus the logarithm of its probability in that state. */
  lemma SigmaIsSurprise(m: Libm, p: real, d: nat, r: nat)
    requires IsLog(m.log) && IsLgamma(m) && 0.0 < p < 1.0 && r <= d
    ensures Binomial(p, d, r) > 0.0 && Sigma(m, p, d, r) == -m.log(Binomial(p, d, r))
  {
    LogBinomial(m, p, d, r);
    LogChooseIsLog(m, d, r);
  }

  // ----- where the cost is least

  lemma LogQuotient(m: Libm, x: real, y: real, z: real)
    requires IsLog(m.log) && z > 0.0 && y > 0.0 && Times(y, z) == x
    ensures m.log(x) - m.log(y) <= z - 1.0
  {
    LogTimes(m, y, z);
    assert BelowLine(m.log, z);
  }

  lemma Scaled(a: real, x: real, y: real)
    requires a >= 0.0 && x <= y
    ensures Times(a, x) <= Times(a, y)
  {
  }

  lemma Spread(a: real, x: real, y: real)
    ensures Times(a, x - y) == Times(a, x) - Times(a, y)
  {
  }

  lemma SigmaDifference(m: Libm, p: real, q: real, d: nat, r: nat)
    requires r <= d
    ensures Sigma(m, q, d, r) - Sigma(m, p, d, r)
         == -Times(r as real, m.log(q) - m.log(p)) - Times((d - r) as real, m.log(1.0 - q) - m.log(1.0 - p))
  {
    Spread(r as real, m.log(q), m.log(p));
    Spread((d - r) as real, m.log(1.0 - q), m.log(1.0 - p));
  }

  /** From p to q, with u = q / p and v = (1 - q) / (1 - p), a batch's cost falls by no more than the line at p. */
  lemma SigmaAboveLine(m: Libm, p: real, q: real, d: nat, r: nat, u: real, v: real)
    requires IsLog(m.log) && 0.0 < p < 1.0 && 0.0 < q < 1.0 && r <= d
    requires u > 0.0 && v > 0.0 && Times(p, u) == q && Times(1.0 - p, v) == 1.0 - q
    ensures Sigma(m, q, d, r) - Sigma(m, p, d, r) >= -Times(r as real, u - 1.0) - Times((d - r) as real, v - 1.0)
  {
    SigmaDifference(m, p, q, d, r);
    LogQuotient(m, q, p, u);
    LogQuotient(m, 1.0 - q, 1.0 - p, v);
    Scaled(r as real, m.log(q) - m.log(p), u - 1.0);
    Scaled((d - r) as real, m.log(1.0 - q) - m.log(1.0 - p), v - 1.0);
  }

  lemma Divide(x: real, y: real) returns (z: real)
    requires x > 0.0 && y > 0.0
    ensures z > 0.0 && Times(y, z) == x
  {
    z := x / y;
  }

  /** That line rises from p to q when q is on the other side of p than the share r / d. */
  lemma LineRises(p: real, q: real, d: real, r: real, u: real, v: real)
    requires 0.0 < p < 1.0 && Times(q - p, Times(d, p) - r) >= 0.0
    requires Times(p, u) == q && Times(1.0 - p, v) == 1.0 - q
    ensures -Times(r, u - 1.0) - Times(d - r, v - 1.0) >= 0.0
  {
    LineAlgebra(p, d, r, u - 1.0, v - 1.0, q - p);
  }

  lemma LineAlgebra(p: real, d: real, r: real, a: real, b: real, e: real)
    requires 0.0 < p < 1.0 && p * a == e && (1.0 - p) * b == -e && e * (d * p - r) >= 0.0
    ensures -(r * a) - (d - r) * b >= 0.0
  {
    var x, k := -(r * a) - (d - r) * b, p * (1.0 - p);
    Positive(p, 1.0 - p);
    assert x * k == e * (d * p - r) by {
      assert (r * a) * k == r * (p * a) * (1.0 - p);
      assert ((d - r) * b) * k == (d - r) * ((1.0 - p) * b) * p;
    }
    SignOfFactor(x, k);
  }

  lemma SignOfFactor(x: real, k: real)
    requires k > 0.0 && x * k >= 0.0
    ensures x >= 0.0
  {
    if x < 0.0 {
      Positive(-x, k);
    }
  }

  /** Away from its share of relevant documents a batch only gets more expensive. */
  lemma SigmaRises(m: Libm, p: real, q: real, d: nat, r: nat)
    requires IsLog(m.log) && 0.0 < p < 1.0 && 0.0 < q < 1.0 && r <= d
    requires Times(q - p, Times(d as real, p) - r as real) >= 0.0
    ensures Sigma(m, p, d, r) <= Sigma(m, q, d, r)
  {
    var u := Divide(q, p);
    var v := Divide(1.0 - q, 1.0 - p);
    SigmaAboveLine(m, p, q, d, r, u, v);
    LineRises(p, q, d as real, r as real, u, v);
  }

  /** The rate p that fits a batch best is its share of relevant documents. */
  lemma SigmaLeastAtShare(m: Libm, p: real, q: real, d: nat, r: nat)
    requires IsLog(m.log) && 0.0 < q < 1.0 && r <= d && 0 < d && Times(d as real, p) == r as real
    ensures Sigma(m, p, d, r) <= Sigma(m, q, d, r)
  {
    if r == 0 {
      NoShare(d as real, p, 0.0);
      SigmaOfNone(m, q, d);
    } else if r == d {
      NoShare(d as real, p, 1.0);
      SigmaOfAll(m, q, d);
    } else {
      ShareInside(p, d as real, r as real);
      SigmaRises(m, p, q, d, r);
    }
  }

  lemma NoShare(d: real, p: real, x: real)
    requires d > 0.0 && Times(d, p) == Times(d, x)
    ensures p == x
  {
    if p < x {
      Positive(d, x - p);
      Spread(d, x, p);
    } else if x < p {
      Positive(d, p - x);
      Spread(d, p, x);
    }
  }

  lemma SigmaOfNone(m: Libm, q: real, d: nat)
    requires IsLog(m.log) && 0.0 < q < 1.0
    ensures Sigma(m, 0.0, d, 0) <= Sigma(m, q, d, 0)
  {
    assert BelowLine(m.log, 1.0 - q);
    Scaled(d as real, m.log(1.0 - q), 0.0);
  }

  lemma SigmaOfAll(m: Libm, q: real, d: nat)
    requires IsLog(m.log) && 0.0 < q < 1.0
    ensures Sigma(m, 1.0, d, d) <= Sigma(m, q, d, d)
  {
    assert BelowLine(m.log, q);
    Scaled(d as real, m.log(q), 0.0);
  }

  lemma ShareInside(p: real, d: real, r: real)
    requires Times(d, p) == r && 0.0 < r < d
    ensures 0.0 < p < 1.0
  {
    if p <= 0.0 {
      Scaled(d, p, 0.0);
    } else if p >= 1.0 {
      Scaled(d, 1.0, p);
    }
  }
}
