/** Finite sums of reals over 0..n, with the exchange and inequality laws that the
    agreement coefficients rest on. */
module Sums {

  ghost function Sum(n: nat, f: int -> real): real {
    if n == 0 then 0.0 else Sum(n - 1, f) + f(n - 1)
  }

  ghost function Plus(f: int -> real, g: int -> real): int -> real { i => f(i) + g(i) }
  ghost function Scaled(c: real, f: int -> real): int -> real { i => c * f(i) }
  ghost function Constant(c: real): int -> real { i => c }
  ghost function Squares(z: int -> real): int -> real { i => Sq(z(i)) }
  ghost function Deviations(z: int -> real, mean: real): int -> real { i => Sq(z(i) - mean) }

  lemma {:induction false} SumCong(n: nat, f: int -> real, g: int -> real)
    requires forall i :: 0 <= i < n ==> f(i) == g(i)
    ensures Sum(n, f) == Sum(n, g)
  {
    if n > 0 { SumCong(n - 1, f, g); }
  }

  lemma {:induction false} SumPlus(n: nat, f: int -> real, g: int -> real)
    ensures Sum(n, Plus(f, g)) == Sum(n, f) + Sum(n, g)
  {
    if n > 0 { SumPlus(n - 1, f, g); }
  }

  lemma {:induction false} SumScaled(n: nat, c: real, f: int -> real)
    ensures Sum(n, Scaled(c, f)) == c * Sum(n, f)
  {
    if n > 0 {
      SumScaled(n - 1, c, f);
      Distribute(c, Sum(n - 1, f), f(n - 1));
    }
  }

  lemma {:induction false} SumConstant(n: nat, c: real)
    ensures Sum(n, Constant(c)) == n as real * c
  {
    if n > 0 {
      SumConstant(n - 1, c);
      Distribute(c, (n - 1) as real, 1.0);
    }
  }

  lemma {:induction false} SumDelta(n: nat, k: int, v: real, h: int -> real)
    requires forall i :: 0 <= i < n ==> h(i) == (if i == k then v else 0.0)
    ensures Sum(n, h) == if 0 <= k < n then v else 0.0
  {
    if n > 0 { SumDelta(n - 1, k, v, h); }
  }

  /** A sum of non-negative terms is non-negative, and zero only when every term is. */
  lemma {:induction false} SumNonNeg(n: nat, f: int -> real)
    requires forall i :: 0 <= i < n ==> f(i) >= 0.0
    ensures Sum(n, f) >= 0.0
    ensures Sum(n, f) == 0.0 <==> forall i :: 0 <= i < n ==> f(i) == 0.0
  {
    if n > 0 { SumNonNeg(n - 1, f); }
  }

  lemma Distribute(c: real, a: real, b: real)
    ensures c * (a + b) == c * a + c * b
    ensures (a + b) * c == a * c + b * c
  {
  }

  ghost function Sq(x: real): real { x * x }

  /** The product is named, so that its sign is a fact about a single term. */
  lemma MulPositive(a: real, b: real, product: real)
    requires a > 0.0 && b > 0.0 && product == a * b
    ensures product > 0.0
  {
  }

  lemma SqNonNeg(x: real)
    ensures Sq(x) >= 0.0
    ensures Sq(x) == 0.0 <==> x == 0.0
  {
    if x > 0.0 { MulPositive(x, x, Sq(x)); }
    if x < 0.0 { MulPositive(-x, -x, Sq(-x)); SqNegate(x); }
  }

  lemma SqNegate(x: real)
    ensures Sq(-x) == Sq(x)
  {
  }

  lemma SqDifference(a: real, b: real)
    ensures Sq(a - b) == Sq(a) + (-2.0 * b) * a + Sq(b)
  {
  }

  lemma DeviationAt(z: int -> real, mean: real, c: real, i: int)
    requires c == -2.0 * mean
    ensures Deviations(z, mean)(i) == Plus(Plus(Squares(z), Scaled(c, z)), Constant(Sq(mean)))(i)
  {
    SqDifference(z(i), mean);
    var linear := c * z(i);
    hide Sq;
    assert Scaled(c, z)(i) == linear;
    assert Plus(Squares(z), Scaled(c, z))(i) == Sq(z(i)) + linear;
  }

  lemma DeviationExpansion(n: nat, z: int -> real, mean: real)
    ensures Sum(n, Deviations(z, mean)) == Sum(n, Squares(z)) + (-2.0 * mean) * Sum(n, z) + n as real * Sq(mean)
  {
    hide *;
    var c := -2.0 * mean;
    var linear := Scaled(c, z);
    var constant := Constant(Sq(mean));
    forall i | 0 <= i < n ensures Deviations(z, mean)(i) == Plus(Plus(Squares(z), linear), constant)(i) {
      DeviationAt(z, mean, c, i);
    }
    SumCong(n, Deviations(z, mean), Plus(Plus(Squares(z), linear), constant));
    SumPlus(n, Plus(Squares(z), linear), constant);
    SumPlus(n, Squares(z), linear);
    SumScaled(n, c, z);
    SumConstant(n, Sq(mean));
  }

  lemma VarianceArithmetic(r: real, mean: real, s: real, q: real, dev: real)
    requires r * mean == s
    requires dev == q + (-2.0 * mean) * s + r * Sq(mean)
    ensures r * dev == r * q - Sq(s)
  {
    calc {
      r * dev;
      r * (q + (-2.0 * mean) * s + r * Sq(mean));
      { Distribute(r, q + (-2.0 * mean) * s, r * Sq(mean)); Distribute(r, q, (-2.0 * mean) * s); }
      r * q + r * ((-2.0 * mean) * s) + r * (r * Sq(mean));
      { assert r * ((-2.0 * mean) * s) == -2.0 * ((r * mean) * s); }
      { assert r * (r * Sq(mean)) == Sq(r * mean); }
      r * q - 2.0 * (s * s) + Sq(s);
    }
  }

  /** n·Σz² − (Σz)² = n·Σ(z − mean)². */
  lemma Variance(n: nat, z: int -> real, mean: real)
    requires n as real * mean == Sum(n, z)
    ensures n as real * Sum(n, Squares(z)) - Sq(Sum(n, z)) == n as real * Sum(n, Deviations(z, mean))
  {
    hide *;
    DeviationExpansion(n, z, mean);
    VarianceArithmetic(n as real, mean, Sum(n, z), Sum(n, Squares(z)), Sum(n, Deviations(z, mean)));
  }

  lemma DeviationSum(n: nat, z: int -> real, mean: real)
    ensures Sum(n, Deviations(z, mean)) >= 0.0
    ensures Sum(n, Deviations(z, mean)) == 0.0 <==> forall i :: 0 <= i < n ==> z(i) == mean
  {
    var dev := Deviations(z, mean);
    forall i | 0 <= i < n ensures dev(i) >= 0.0 && (dev(i) == 0.0 <==> z(i) == mean) {
      SqNonNeg(z(i) - mean);
    }
    SumNonNeg(n, dev);
    if Sum(n, dev) == 0.0 {
      forall i | 0 <= i < n ensures z(i) == mean { assert dev(i) == 0.0; }
    }
  }

  lemma Mean(r: real, s: real) returns (mean: real)
    requires r != 0.0
    ensures r * mean == s
  {
    mean := s / r;
  }

  lemma CancelFactor(r: real, x: real, y: real)
    requires r > 0.0 && r * x == r * y
    ensures x == y
  {
    if x > y { MulPositive(r, x - y, r * (x - y)); }
    if x < y { MulPositive(r, y - x, r * (y - x)); }
  }

  /** A positive multiple of a non-negative number. */
  lemma SignOfMultiple(r: real, x: real, p: real)
    requires r > 0.0 && x >= 0.0 && p == r * x
    ensures p >= 0.0 && (p == 0.0 <==> x == 0.0)
  {
    if x > 0.0 { MulPositive(r, x, p); }
  }

  lemma AllEqualMean(n: nat, z: int -> real, mean: real)
    requires n > 0 && n as real * mean == Sum(n, z) && forall i :: 0 <= i < n ==> z(i) == z(0)
    ensures mean == z(0)
  {
    hide Sum;
    SumCong(n, z, Constant(z(0)));
    SumConstant(n, z(0));
    CancelFactor(n as real, mean, z(0));
  }

  lemma CauchyEmpty(z: int -> real, gap: real)
    requires gap == 0 as real * Sum(0, Squares(z)) - Sq(Sum(0, z))
    ensures gap == 0.0
  {
  }

  lemma CauchyGap(n: nat, z: int -> real, mean: real, gap: real, dev: real)
    requires n as real * mean == Sum(n, z) && dev == Sum(n, Deviations(z, mean))
    requires gap == n as real * Sum(n, Squares(z)) - Sq(Sum(n, z))
    ensures gap == n as real * dev
  {
    hide *;
    Variance(n, z, mean);
  }

  /** Cauchy–Schwarz against the constant sequence, with its equality case. */
  lemma CauchySchwarz(n: nat, z: int -> real, gap: real)
    requires gap == n as real * Sum(n, Squares(z)) - Sq(Sum(n, z))
    ensures gap >= 0.0
    ensures gap == 0.0 <==> forall i :: 0 <= i < n ==> z(i) == z(0)
  {
    hide *;
    if n == 0 {
      CauchyEmpty(z, gap);
    } else {
      var mean := Mean(n as real, Sum(n, z));
      var dev := Sum(n, Deviations(z, mean));
      CauchyGap(n, z, mean, gap, dev);
      CauchySigns(n, z, mean, gap, dev);
    }
  }

  lemma CauchySigns(n: nat, z: int -> real, mean: real, gap: real, dev: real)
    requires n > 0 && n as real * mean == Sum(n, z) && dev == Sum(n, Deviations(z, mean)) && gap == n as real * dev
    ensures gap >= 0.0
    ensures gap == 0.0 <==> forall i :: 0 <= i < n ==> z(i) == z(0)
  {
    hide *;
    DeviationSum(n, z, mean);
    SignOfMultiple(n as real, dev, gap);
    if forall i :: 0 <= i < n ==> z(i) == z(0) { AllEqualMean(n, z, mean); }
  }
}
