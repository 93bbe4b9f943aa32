/** Gwet's AC1 (eval/judge_csm.py), the coefficient reported beside kappa when kappa's
    interval is wide. */
module Ac1 {
  import opened Rubric
  import opened Sums
  import opened Agreement

  /** Items among the first n on which the two raters agree. */
  ghost function Agreed(x: seq<nat>, y: seq<nat>, n: nat): real
    requires n <= |x| && n <= |y|
  {
    if n == 0 then 0.0 else Agreed(x, y, n - 1) + (if x[n - 1] == y[n - 1] then 1.0 else 0.0)
  }

  lemma {:induction false} AgreedRange(x: seq<nat>, y: seq<nat>, n: nat)
    requires n <= |x| && n <= |y|
    ensures 0.0 <= Agreed(x, y, n) <= n as real
    ensures Agreed(x, y, n) == n as real <==> x[..n] == y[..n]
  {
    if n > 0 {
      AgreedRange(x, y, n - 1);
      assert x[..n] == x[..n - 1] + [x[n - 1]] && y[..n] == y[..n - 1] + [y[n - 1]];
    }
  }

  ghost function HitsOf(u: seq<nat>): int -> real { r => Hits(u, |u|, r) }

  /** Ordered pairs of pooled ratings that fall in the same category. */
  ghost function Coincidences(u: seq<nat>): real { Sum(|u|, Along(u, HitsOf(u))) }

  /** Every pooled rating falls in one of the k categories. */
  lemma HitsTotal(k: nat, u: seq<nat>)
    requires Within(u, k)
    ensures Sum(k, HitsOf(u)) == |u| as real
  {
    MarginalSum(k, u, |u|, Constant(1.0));
    SumCong(k, HitsOf(u), Weighted(u, |u|, Constant(1.0)));
    SumCong(|u|, Along(u, Constant(1.0)), Constant(1.0));
    SumConstant(|u|, 1.0);
  }

  lemma CoincidencesByCategory(k: nat, u: seq<nat>)
    requires Within(u, k)
    ensures Sum(k, Squares(HitsOf(u))) == Coincidences(u)
  {
    MarginalSum(k, u, |u|, HitsOf(u));
    forall r | 0 <= r < k ensures Squares(HitsOf(u))(r) == Weighted(u, |u|, HitsOf(u))(r) {
      var h := Hits(u, |u|, r);
      assert Squares(HitsOf(u))(r) == Sq(h) && Weighted(u, |u|, HitsOf(u))(r) == h * h;
    }
    SumCong(k, Squares(HitsOf(u)), Weighted(u, |u|, HitsOf(u)));
  }

  ghost predicate EvenlyUsed(u: seq<nat>, k: nat) {
    forall r :: 0 <= r < k ==> Hits(u, |u|, r) == Hits(u, |u|, 0)
  }

  /** Pooled ratings coincide at least as often as under a uniform spread over k
      categories, and at that rate only when all categories are used equally often. */
  lemma CoincidencesBound(k: nat, u: seq<nat>, gap: real)
    requires Within(u, k) && gap == k as real * Coincidences(u) - Sq(|u| as real)
    ensures gap >= 0.0
    ensures gap == 0.0 <==> EvenlyUsed(u, k)
  {
    HitsTotal(k, u);
    CoincidencesByCategory(k, u);
    CauchySchwarz(k, HitsOf(u), gap);
    var f := HitsOf(u);
    forall r ensures f(r) == Hits(u, |u|, r) {}
  }

  ghost function Chance(u: seq<nat>, k: nat): real
    requires u != [] && k >= 2
  {
    Ratio(1.0 - Ratio(Coincidences(u), Sq(|u| as real)), (k - 1) as real)
  }

  ghost function Ac1Of(x: seq<nat>, y: seq<nat>, k: nat): real
    requires 0 < |x| == |y| && k >= 2 && Chance(x + y, k) != 1.0
  {
    Ratio(Ratio(Agreed(x, y, |x|), |x| as real) - Chance(x + y, k), 1.0 - Chance(x + y, k))
  }

  /** p ≤ 1/k, where p·(k−1) = 1 − c/s and the category bound is k·c ≥ s. */
  lemma ChanceArithmetic(c: real, s: real, k: real, share: real, p: real, unit: real)
    requires k >= 2.0 && s > 0.0 && k * c - s >= 0.0
    requires share * s == c && p * (k - 1.0) == 1.0 - share && unit * k == 1.0
    ensures p <= unit && (p == unit <==> k * c - s == 0.0)
  {
    var spare := k * share - 1.0;
    assert spare * s == k * c - s by { assert k * share * s == k * (share * s); Distribute(s, k * share, -1.0); }
    QuotientSign(k * c - s, s, spare);
    var slack := 1.0 - k * p;
    assert slack * (k - 1.0) == spare by {
      calc {
        slack * (k - 1.0);
        (k - 1.0) - k * (p * (k - 1.0));
        (k - 1.0) - k * (1.0 - share);
        spare;
      }
    }
    QuotientSign(spare, k - 1.0, slack);
    Distribute(k, unit, -p);
    QuotientSign(slack, k, unit - p);
  }

  lemma UnitSize(k: real, unit: real)
    requires k >= 2.0 && unit * k == 1.0
    ensures 0.0 < unit <= 0.5
  {
    QuotientSign(1.0, k, unit);
    if unit > 0.5 {
      MulPositive(unit - 0.5, k, (unit - 0.5) * k);
      Distribute(k, unit, -0.5);
    }
  }

  /** With k ≥ 2 labels the expected agreement is at most 1/k, reached exactly when the
      pooled ratings use every label equally often. */
  lemma ChanceBound(u: seq<nat>, k: nat)
    requires u != [] && k >= 2 && Within(u, k)
    ensures Chance(u, k) <= Ratio(1.0, k as real) <= 0.5
    ensures Chance(u, k) == Ratio(1.0, k as real) <==> EvenlyUsed(u, k)
  {
    var c, s := Coincidences(u), Sq(|u| as real);
    CoincidencesBound(k, u, k as real * c - s);
    SqNonNeg(|u| as real);
    var share := Ratio(c, s);
    assert Chance(u, k) == Ratio(1.0 - share, (k - 1) as real);
    hide *;
    UnitSize(k as real, Ratio(1.0, k as real));
    ChanceArithmetic(c, s, k as real, share, Chance(u, k), Ratio(1.0, k as real));
  }

  lemma Ac1Arithmetic(agreed: real, n: real, po: real, p: real, j: real, a: real, unit: real, floor: real)
    requires n > 0.0 && 0.0 <= agreed <= n && po * n == agreed
    requires j >= 1.0 && unit * (j + 1.0) == 1.0 && floor * j == 1.0
    requires p <= unit && p < 1.0 && a * (1.0 - p) == po - p
    ensures -floor <= a <= 1.0 && (a == 1.0 <==> agreed == n)
    ensures a == -floor <==> agreed == 0.0 && p == unit
  {
    QuotientSign(agreed, n, po);
    Distribute(n, 1.0, -po);
    QuotientSign(n - agreed, n, 1.0 - po);
    var d := 1.0 - p;
    Distribute(d, 1.0, -a);
    QuotientSign(1.0 - po, d, 1.0 - a);
    var excess, room := po * j, (unit - p) * (j + 1.0);
    assert (a + floor) * j * d == excess + room by {
      calc {
        (a + floor) * j * d;
        { Distribute(j, a, floor); }
        (a * j + 1.0) * d;
        { Distribute(d, a * j, 1.0); assert a * j * d == j * (a * d); }
        j * (po - p) + d;
        { Distribute(j + 1.0, unit, -p); }
        excess + room;
      }
    }
    if po > 0.0 { MulPositive(po, j, excess); }
    if unit > p { MulPositive(unit - p, j + 1.0, room); }
    QuotientSign(excess + room, d, (a + floor) * j);
    QuotientSign((a + floor) * j, j, a + floor);
  }

  lemma PooledWithin(x: seq<nat>, y: seq<nat>, k: nat)
    requires Within(x, k) && Within(y, k)
    ensures Within(x + y, k)
  {
  }

  lemma Ac1Definition(x: seq<nat>, y: seq<nat>, k: nat)
    requires 0 < |x| == |y| && k >= 2 && Chance(x + y, k) != 1.0
    ensures Ac1Of(x, y, k) * (1.0 - Chance(x + y, k)) == Ratio(Agreed(x, y, |x|), |x| as real) - Chance(x + y, k)
  {
    hide Chance;
    hide Agreed;
  }

  /** AC1 lies in [−1/(k−1), 1]; it is 1 exactly for identical ratings, and reaches the
      lower end exactly when no item agrees and the pooled labels are spread evenly. */
  lemma Ac1OfRange(x: seq<nat>, y: seq<nat>, k: nat)
    requires 0 < |x| == |y| && k >= 2 && Within(x, k) && Within(y, k)
    ensures Chance(x + y, k) <= 0.5
    ensures -Ratio(1.0, (k - 1) as real) <= Ac1Of(x, y, k) <= 1.0
    ensures Ac1Of(x, y, k) == 1.0 <==> x == y
    ensures Ac1Of(x, y, k) == -Ratio(1.0, (k - 1) as real) <==> Agreed(x, y, |x|) == 0.0 && EvenlyUsed(x + y, k)
  {
    hide *;
    PooledWithin(x, y, k);
    var u, n := x + y, |x|;
    ChanceBound(u, k);
    AgreedRange(x, y, n);
    assert x[..n] == x && y[..n] == y;
    Ac1Definition(x, y, k);
    Ac1Arithmetic(Agreed(x, y, n), n as real, Ratio(Agreed(x, y, n), n as real), Chance(u, k), (k - 1) as real,
                  Ac1Of(x, y, k), Ratio(1.0, k as real), Ratio(1.0, (k - 1) as real));
  }

  ghost function Coefficient(human: seq<int>, judge: seq<int>, labels: seq<int>): real
    requires Scorable(human, judge, labels) && |labels| >= 2
  {
    ScorableParts(human, judge, labels);
    var x, y := Positions(labels, human), Positions(labels, judge);
    ChanceBound(x + y, |labels|);
    Ac1Of(x, y, |labels|)
  }

  lemma CoefficientRange(human: seq<int>, judge: seq<int>, labels: seq<int>)
    requires Scorable(human, judge, labels) && |labels| >= 2
    ensures -Ratio(1.0, (|labels| - 1) as real) <= Coefficient(human, judge, labels) <= 1.0
    ensures Coefficient(human, judge, labels) == 1.0 <==> human == judge
  {
    hide Ac1Of;
    hide Chance;
    hide Ratio;
    hide Agreed;
    hide LabelIndex;
    hide Within;
    ScorableParts(human, judge, labels);
    var x, y := Positions(labels, human), Positions(labels, judge);
    PositionsWithin(labels, human, x);
    PositionsWithin(labels, judge, y);
    Ac1OfRange(x, y, |labels|);
    PositionsAgree(labels, human, judge);
    assert Coefficient(human, judge, labels) == Ac1Of(x, y, |labels|);
  }

  lemma PositionsWithin(labels: seq<int>, scores: seq<int>, x: seq<nat>)
    requires forall s | s in scores :: s in labels
    requires x == Positions(labels, scores)
    ensures Within(x, |labels|)
  {
  }

  // ----- The computation -----

  ghost function Spread(u: seq<nat>): int -> real
    requires u != []
  { r => var p := Ratio(Hits(u, |u|, r), |u| as real); p * (1.0 - p) }

  lemma SpreadAt(h: real, n: real, i: real, p: real)
    requires n > 0.0 && i * n == 1.0 && p * n == h
    ensures p * (1.0 - p) == i * h - (i * i) * Sq(h)
  {
    assert p == i * h by { assert i * (p * n) == (i * n) * p; }
    assert (i * h) * (i * h) == (i * i) * (h * h);
  }

  lemma SpreadIs(u: seq<nat>, i: real, ii: real, r: int)
    requires u != [] && i * |u| as real == 1.0 && ii == i * i
    ensures Spread(u)(r) == Plus(Scaled(i, HitsOf(u)), Scaled(-ii, Squares(HitsOf(u))))(r)
  {
    hide Hits;
    hide Ratio;
    var h := Hits(u, |u|, r);
    SpreadAt(h, |u| as real, i, Ratio(h, |u| as real));
    NegatedProduct(ii, Sq(h));
  }

  lemma NegatedProduct(a: real, b: real)
    ensures -a * b == -(a * b)
  {
  }

  /** Σ p(1 − p) over the categories is one minus the coincidence rate. */
  lemma SpreadSum(k: nat, u: seq<nat>)
    requires u != [] && Within(u, k)
    ensures Sum(k, Spread(u)) == 1.0 - Ratio(Coincidences(u), Sq(|u| as real))
  {
    hide *;
    var n := |u| as real;
    var i := Ratio(1.0, n);
    var ii := i * i;
    var linear, square := Scaled(i, HitsOf(u)), Scaled(-ii, Squares(HitsOf(u)));
    forall r | 0 <= r < k ensures Spread(u)(r) == Plus(linear, square)(r) { SpreadIs(u, i, ii, r); }
    SumCong(k, Spread(u), Plus(linear, square));
    SumPlus(k, linear, square);
    SumScaled(k, i, HitsOf(u));
    SumScaled(k, -ii, Squares(HitsOf(u)));
    HitsTotal(k, u);
    CoincidencesByCategory(k, u);
    InverseSquare(n, i, Coincidences(u));
  }

  lemma InverseSquare(n: real, i: real, c: real)
    requires n > 0.0 && i * n == 1.0
    ensures Sq(n) != 0.0 && Ratio(c, Sq(n)) == (i * i) * c
    ensures -(i * i) * c == -((i * i) * c)
  {
    MulPositive(n, n, Sq(n));
    calc {
      (i * i) * c * Sq(n);
      (i * n) * ((i * n) * c);
      { assert (i * n) * c == c; }
      (i * n) * c;
      c;
    }
    RatioUnique(c, Sq(n), (i * i) * c);
  }

  method AgreementCount(human: seq<int>, judge: seq<int>, labels: seq<int>, ghost x: seq<nat>, ghost y: seq<nat>)
    returns (agree: real)
    requires forall s | s in human :: s in labels
    requires forall s | s in judge :: s in labels
    requires |human| == |judge| && x == Positions(labels, human) && y == Positions(labels, judge)
    ensures agree == Agreed(x, y, |x|)
  {
    agree := 0.0;
    for t := 0 to |human|
      invariant agree == Agreed(x, y, t)
    {
      assert labels[x[t]] == human[t] && labels[y[t]] == judge[t];
      if human[t] == judge[t] { agree := agree + 1.0; }
    }
  }

  method CategorySpread(u: seq<nat>, size: nat) returns (spread: real)
    requires u != [] && Within(u, size)
    ensures spread == Sum(size, Spread(u))
  {
    hide Ratio;
    hide Hits;
    var counts := CategoryCounts(u, size);
    var pooledTotal := |u| as real;
    spread := 0.0;
    for q := 0 to size
      invariant spread == Sum(q, Spread(u))
    {
      var prop := Ratio(counts[q], pooledTotal);
      spread := spread + prop * (1.0 - prop);
    }
  }

  method GwetAc1(human: seq<int>, judge: seq<int>, labels: seq<int>) returns (r: Result<real>)
    ensures !Scorable(human, judge, labels) ==> r == Err(ValueError)
    ensures Scorable(human, judge, labels) && |labels| == 1 ==> r == Err(ZeroDivisionError)
    ensures Scorable(human, judge, labels) && |labels| >= 2 ==> r == Ok(Coefficient(human, judge, labels))
  {
    hide Ratio;
    hide LabelIndex;
    hide IsClose;
    hide Sq;
    hide Coincidences;
    hide Sum;
    hide Agreed;
    hide Hits;
    if |human| != |judge| || human == [] { return Err(ValueError); }
    if exists s | s in human + judge :: s !in labels { return Err(ValueError); }
    ScorableParts(human, judge, labels);
    var x, y := Positions(labels, human), Positions(labels, judge);
    var size, n, u := |labels|, |human|, x + y;
    var agree := AgreementCount(human, judge, labels, x, y);
    var observedAgreement := Ratio(agree, n as real);
    var spread := CategorySpread(u, size);
    if size == 1 { return Err(ZeroDivisionError); }
    assert human[0] in labels;
    SpreadSum(size, u);
    ChanceBound(u, size);
    var expectedAgreement := Ratio(spread, (size - 1) as real);
    assert expectedAgreement == Chance(u, size);
    hide Chance;
    NeverClose(expectedAgreement);
    if IsClose(expectedAgreement, 1.0) {
      return Ok(if IsClose(observedAgreement, 1.0) then 1.0 else 0.0);
    }
    return Ok(Ratio(observedAgreement - expectedAgreement, 1.0 - expectedAgreement));
  }

  method CategoryCounts(u: seq<nat>, size: nat) returns (counts: array<real>)
    requires Within(u, size)
    ensures fresh(counts) && counts.Length == size
    ensures forall q | 0 <= q < size :: counts[q] == Hits(u, |u|, q)
  {
    counts := new real[size](_ => 0.0);
    for t := 0 to |u|
      invariant forall q | 0 <= q < size :: counts[q] == Hits(u, t, q)
    {
      counts[u[t]] := counts[u[t]] + 1.0;
    }
  }

  /** With two or more labels the fallback for an expected agreement near 1 is unreachable. */
  lemma NeverClose(p: real)
    requires p <= 0.5
    ensures !IsClose(p, 1.0)
  {
  }
}
