/** Agreement coefficients between two raters (eval/judge_csm.py): quadratically weighted
    Cohen's kappa built through a confusion matrix, and Gwet's AC1.

    The coefficients are specified without a matrix and without marginals, as sums over
    the rated items themselves; the methods are proved to compute exactly those values. */
module Agreement {
  import opened Rubric
  import opened Sums

  /** `math.isclose` with its default tolerances (relative 1e-9, absolute 0). */
  predicate IsClose(a: real, b: real) {
    a == b || Abs(a - b) <= 0.000000001 * (if Abs(a) >= Abs(b) then Abs(a) else Abs(b))
  }

  function Abs(a: real): real { if a >= 0.0 then a else -a }

  lemma CloseToZero(a: real)
    ensures IsClose(a, 0.0) <==> a == 0.0
  {
  }

  /** The index a score gets from `{label: index for index, label in enumerate(labels)}`. */
  function LabelIndex(labels: seq<int>, score: int): (i: nat)
    requires score in labels
    ensures i < |labels| && labels[i] == score
  {
    if labels[|labels| - 1] == score then |labels| - 1
    else LabelIndex(labels[..|labels| - 1], score)
  }

  /** Scores as positions on the rubric scale. */
  function Positions(labels: seq<int>, scores: seq<int>): (p: seq<nat>)
    requires forall s | s in scores :: s in labels
    ensures |p| == |scores|
    ensures forall t | 0 <= t < |p| :: p[t] == LabelIndex(labels, scores[t])
  {
    seq(|scores|, t requires 0 <= t < |scores| => assert scores[t] in scores; LabelIndex(labels, scores[t]))
  }

  predicate Scorable(human: seq<int>, judge: seq<int>, labels: seq<int>) {
    |human| == |judge| && human != [] && forall s | s in human + judge :: s in labels
  }

  lemma PositionsAgree(labels: seq<int>, human: seq<int>, judge: seq<int>)
    requires Scorable(human, judge, labels)
    requires forall s | s in human :: s in labels
    requires forall s | s in judge :: s in labels
    ensures Positions(labels, human) == Positions(labels, judge) <==> human == judge
  {
    var p, q := Positions(labels, human), Positions(labels, judge);
    assert p == q ==> forall t | 0 <= t < |human| :: human[t] == labels[p[t]] == judge[t];
  }

  // ----- Kappa without a matrix -----

  ghost function At(x: seq<nat>): int -> real { i => if 0 <= i < |x| then x[i] as real else 0.0 }

  /** Squared distances between the two ratings of one item. */
  ghost function Gaps(a: int -> real, b: int -> real): int -> real { t => Sq(a(t) - b(t)) }

  /** Σₜ (aₜ − bₜ)² */
  ghost function Matched(n: nat, a: int -> real, b: int -> real): real { Sum(n, Gaps(a, b)) }

  ghost function AgainstAll(n: nat, a: int -> real, b: int -> real): int -> real {
    s => Sum(n, Deviations(b, a(s)))
  }

  /** Σₛ Σₜ (aₛ − bₜ)²: every rating of one rater against every rating of the other. */
  ghost function Crossed(n: nat, a: int -> real, b: int -> real): real { Sum(n, AgainstAll(n, a, b)) }

  ghost function KappaOf(n: nat, a: int -> real, b: int -> real): real {
    if Crossed(n, a, b) == 0.0 then 1.0
    else 1.0 - Ratio(n as real * Matched(n, a, b), Crossed(n, a, b))
  }

  function Ratio(p: real, c: real): (q: real)
    requires c != 0.0
    ensures q * c == p
  {
    p / c
  }

  ghost function Kappa(human: seq<int>, judge: seq<int>, labels: seq<int>): real
    requires Scorable(human, judge, labels)
  {
    ScorableParts(human, judge, labels);
    KappaOf(|human|, At(Positions(labels, human)), At(Positions(labels, judge)))
  }

  lemma ScorableParts(human: seq<int>, judge: seq<int>, labels: seq<int>)
    requires Scorable(human, judge, labels)
    ensures forall s | s in human :: s in labels
    ensures forall s | s in judge :: s in labels
  {
    forall s | s in human ensures s in labels { assert s in human + judge; }
    forall s | s in judge ensures s in labels { assert s in human + judge; }
  }

  // ----- Laws of the pairwise sums -----

  lemma MatchedZero(n: nat, a: int -> real, b: int -> real)
    ensures Matched(n, a, b) >= 0.0
    ensures Matched(n, a, b) == 0.0 <==> forall t :: 0 <= t < n ==> a(t) == b(t)
  {
    var g := Gaps(a, b);
    forall t | 0 <= t < n ensures g(t) >= 0.0 && (g(t) == 0.0 <==> a(t) == b(t)) { SqNonNeg(a(t) - b(t)); }
    SumNonNeg(n, g);
    if Matched(n, a, b) == 0.0 {
      forall t | 0 <= t < n ensures a(t) == b(t) { assert g(t) == 0.0; }
    }
  }

  lemma CrossedZero(n: nat, a: int -> real, b: int -> real)
    ensures Crossed(n, a, b) >= 0.0
    ensures Crossed(n, a, b) == 0.0 <==> forall s, t :: 0 <= s < n && 0 <= t < n ==> a(s) == b(t)
  {
    var g := AgainstAll(n, a, b);
    forall s | 0 <= s < n
      ensures g(s) >= 0.0
      ensures g(s) == 0.0 <==> forall t :: 0 <= t < n ==> b(t) == a(s)
    {
      DeviationSum(n, b, a(s));
    }
    SumNonNeg(n, g);
    if Crossed(n, a, b) == 0.0 {
      forall s, t | 0 <= s < n && 0 <= t < n ensures a(s) == b(t) { assert g(s) == 0.0; }
    } else {
      var s :| 0 <= s < n && g(s) != 0.0;
      var t :| 0 <= t < n && b(t) != a(s);
    }
  }

  lemma {:induction false} SumQuadratic(n: nat, k: real, c: real, f: int -> real, r: real, g: int -> real)
    ensures Sum(n, Plus(Plus(Constant(k), Scaled(c, f)), Scaled(r, g))) == n as real * k + c * Sum(n, f) + r * Sum(n, g)
  {
    SumPlus(n, Plus(Constant(k), Scaled(c, f)), Scaled(r, g));
    SumPlus(n, Constant(k), Scaled(c, f));
    SumConstant(n, k);
    SumScaled(n, c, f);
    SumScaled(n, r, g);
  }

  lemma CrossedAt(n: nat, a: int -> real, b: int -> real, k: real, c: real, s: int)
    requires k == Sum(n, Squares(b)) && c == -2.0 * Sum(n, b)
    ensures AgainstAll(n, a, b)(s) == Plus(Plus(Constant(k), Scaled(c, a)), Scaled(n as real, Squares(a)))(s)
  {
    hide Sq;
    DeviationExpansion(n, b, a(s));
    Reassociate(a(s), Sum(n, b));
  }

  /** Σₛ Σₜ (aₛ − bₜ)² = n·Σb² − 2·Σb·Σa + n·Σa². */
  lemma CrossedExpansion(n: nat, a: int -> real, b: int -> real, k: real, c: real)
    requires k == Sum(n, Squares(b)) && c == -2.0 * Sum(n, b)
    ensures Crossed(n, a, b) == n as real * k + c * Sum(n, a) + n as real * Sum(n, Squares(a))
  {
    var quadratic := Plus(Plus(Constant(k), Scaled(c, a)), Scaled(n as real, Squares(a)));
    assert Crossed(n, a, b) == Sum(n, AgainstAll(n, a, b));
    hide *;
    forall s | 0 <= s < n ensures AgainstAll(n, a, b)(s) == quadratic(s) { CrossedAt(n, a, b, k, c, s); }
    SumCong(n, AgainstAll(n, a, b), quadratic);
    SumQuadratic(n, k, c, a, n as real, Squares(a));
  }

  lemma Reassociate(a: real, b: real)
    ensures (-2.0 * a) * b == (-2.0 * b) * a
  {
  }

  lemma ParallelogramAt(p: real, q: real)
    ensures Sq(p + q) + Sq(p - q) == 2.0 * Sq(p) + 2.0 * Sq(q)
  {
  }

  /** Σ(a+b)² + Σ(a−b)² = 2·Σa² + 2·Σb². */
  lemma Parallelogram(n: nat, a: int -> real, b: int -> real)
    ensures Sum(n, Squares(Plus(a, b))) + Matched(n, a, b) == 2.0 * Sum(n, Squares(a)) + 2.0 * Sum(n, Squares(b))
  {
    var left := Plus(Squares(Plus(a, b)), Gaps(a, b));
    var right := Plus(Scaled(2.0, Squares(a)), Scaled(2.0, Squares(b)));
    forall t | 0 <= t < n ensures left(t) == right(t) { ParallelogramAt(a(t), b(t)); }
    SumCong(n, left, right);
    SumPlus(n, Squares(Plus(a, b)), Gaps(a, b));
    SumPlus(n, Scaled(2.0, Squares(a)), Scaled(2.0, Squares(b)));
    SumScaled(n, 2.0, Squares(a));
    SumScaled(n, 2.0, Squares(b));
  }

  lemma BalanceArithmetic(r: real, a: real, b: real, a2: real, b2: real, z2: real, m: real, c: real)
    requires z2 + m == 2.0 * a2 + 2.0 * b2
    requires c == r * b2 + (-2.0 * b) * a + r * a2
    ensures 2.0 * c - r * m == (r * z2 - Sq(a + b)) + Sq(a - b)
  {
    assert r * m == 2.0 * (r * a2) + 2.0 * (r * b2) - r * z2 by {
      assert m == 2.0 * a2 + 2.0 * b2 - z2;
      Distribute(r, 2.0 * a2 + 2.0 * b2, -z2);
      Distribute(r, 2.0 * a2, 2.0 * b2);
    }
    assert Sq(a + b) - Sq(a - b) == 4.0 * (a * b);
    assert (-2.0 * b) * a == -2.0 * (a * b);
  }

  lemma BalanceIdentity(n: nat, a: int -> real, b: int -> real, slack: real, gap: real, spread: real)
    requires slack == 2.0 * Crossed(n, a, b) - n as real * Matched(n, a, b)
    requires gap == n as real * Sum(n, Squares(Plus(a, b))) - Sq(Sum(n, Plus(a, b)))
    requires spread == Sq(Sum(n, a) - Sum(n, b))
    ensures slack == gap + spread
  {
    hide *;
    CrossedExpansion(n, a, b, Sum(n, Squares(b)), -2.0 * Sum(n, b));
    Parallelogram(n, a, b);
    SumPlus(n, a, b);
    assert Sq(Sum(n, Plus(a, b))) == Sq(Sum(n, a) + Sum(n, b));
    BalanceArithmetic(n as real, Sum(n, a), Sum(n, b), Sum(n, Squares(a)), Sum(n, Squares(b)),
                      Sum(n, Squares(Plus(a, b))), Matched(n, a, b), Crossed(n, a, b));
  }

  /** The two raters mirror each other: each pair of ratings adds up to the same total,
      and the raters have the same total. */
  ghost predicate Mirrored(n: nat, a: int -> real, b: int -> real) {
    (forall t :: 0 <= t < n ==> a(t) + b(t) == a(0) + b(0)) && Sum(n, a) == Sum(n, b)
  }

  /** n·Σ(a−b)² never exceeds twice the crossed sum; it reaches it exactly for mirrored raters. */
  lemma Balance(n: nat, a: int -> real, b: int -> real, slack: real)
    requires slack == 2.0 * Crossed(n, a, b) - n as real * Matched(n, a, b)
    ensures slack >= 0.0
    ensures slack == 0.0 <==> Mirrored(n, a, b)
  {
    var gap := n as real * Sum(n, Squares(Plus(a, b))) - Sq(Sum(n, Plus(a, b)));
    var spread := Sq(Sum(n, a) - Sum(n, b));
    BalanceIdentity(n, a, b, slack, gap, spread);
    CauchySchwarz(n, Plus(a, b), gap);
    SqNonNeg(Sum(n, a) - Sum(n, b));
    MirrorPairs(n, a, b);
  }

  lemma MirrorPairs(n: nat, a: int -> real, b: int -> real)
    ensures (forall t :: 0 <= t < n ==> Plus(a, b)(t) == Plus(a, b)(0))
       <==> (forall t :: 0 <= t < n ==> a(t) + b(t) == a(0) + b(0))
  {
    var z := Plus(a, b);
    if forall t :: 0 <= t < n ==> z(t) == z(0) {
      forall t | 0 <= t < n ensures a(t) + b(t) == a(0) + b(0) { assert z(t) == z(0); }
    }
  }

  // ----- What kappa can be -----

  lemma RatioBound(c: real, m: real, r: real, p: real, k: real)
    requires c > 0.0 && r > 0.0 && m >= 0.0 && p == r * m && k == 1.0 - Ratio(p, c)
    ensures k <= 1.0 && (k == 1.0 <==> m == 0.0)
    ensures (k >= -1.0 <==> 2.0 * c - p >= 0.0) && (k == -1.0 <==> 2.0 * c - p == 0.0)
  {
    hide *;
    if m > 0.0 { MulPositive(r, m, p); }
    var q := Ratio(p, c);
    QuotientSign(p, c, q);
    Distribute(c, q, -2.0);
    QuotientSign(p - 2.0 * c, c, q - 2.0);
  }

  lemma QuotientSign(p: real, c: real, q: real)
    requires c > 0.0 && q * c == p
    ensures (q > 0.0 <==> p > 0.0) && (q == 0.0 <==> p == 0.0)
  {
    if q > 0.0 { MulPositive(q, c, p); }
    if q < 0.0 { MulPositive(-q, c, -p); }
  }

  lemma KappaOfIs(n: nat, a: int -> real, b: int -> real, p: real, c: real)
    requires p == n as real * Matched(n, a, b) && c == Crossed(n, a, b)
    ensures KappaOf(n, a, b) == if c == 0.0 then 1.0 else 1.0 - Ratio(p, c)
  {
    hide Matched;
    hide Crossed;
    hide Ratio;
  }

  lemma KappaOfBounds(n: nat, a: int -> real, b: int -> real)
    requires n > 0
    ensures -1.0 <= KappaOf(n, a, b) <= 1.0
    ensures KappaOf(n, a, b) == 1.0 <==> forall t :: 0 <= t < n ==> a(t) == b(t)
    ensures KappaOf(n, a, b) == -1.0 <==> Mirrored(n, a, b) && Crossed(n, a, b) != 0.0
  {
    hide *;
    var m, c := Matched(n, a, b), Crossed(n, a, b);
    var p := n as real * m;
    MatchedZero(n, a, b);
    CrossedZero(n, a, b);
    Balance(n, a, b, 2.0 * c - p);
    KappaOfIs(n, a, b, p, c);
    if c > 0.0 { RatioBound(c, m, n as real, p, KappaOf(n, a, b)); }
  }

  lemma MatchedSymmetric(n: nat, a: int -> real, b: int -> real)
    ensures Matched(n, a, b) == Matched(n, b, a)
  {
    forall t | 0 <= t < n ensures Gaps(a, b)(t) == Gaps(b, a)(t) { SqNegate(a(t) - b(t)); }
    SumCong(n, Gaps(a, b), Gaps(b, a));
  }

  lemma CrossedSymmetric(n: nat, a: int -> real, b: int -> real)
    ensures Crossed(n, a, b) == Crossed(n, b, a)
  {
    hide *;
    CrossedExpansion(n, a, b, Sum(n, Squares(b)), -2.0 * Sum(n, b));
    CrossedExpansion(n, b, a, Sum(n, Squares(a)), -2.0 * Sum(n, a));
    Reassociate(Sum(n, b), Sum(n, a));
  }

  /** Swapping the two raters leaves kappa unchanged. */
  lemma KappaSymmetric(human: seq<int>, judge: seq<int>, labels: seq<int>)
    requires Scorable(human, judge, labels)
    ensures Scorable(judge, human, labels)
    ensures Kappa(human, judge, labels) == Kappa(judge, human, labels)
  {
    hide Matched;
    hide Crossed;
    ScorableParts(human, judge, labels);
    var a, b := At(Positions(labels, human)), At(Positions(labels, judge));
    MatchedSymmetric(|human|, a, b);
    CrossedSymmetric(|human|, a, b);
  }

  /** Kappa lies in [−1, 1]; it is 1 exactly when the raters agree on every item, and −1
      exactly when their ratings are mirror images that are not all the same. The
      zero-expected-disagreement fallback is reached only by identical constant ratings. */
  lemma KappaRange(human: seq<int>, judge: seq<int>, labels: seq<int>, a: int -> real, b: int -> real)
    requires Scorable(human, judge, labels)
    requires forall s | s in human :: s in labels
    requires forall s | s in judge :: s in labels
    requires a == At(Positions(labels, human)) && b == At(Positions(labels, judge))
    ensures -1.0 <= Kappa(human, judge, labels) <= 1.0
    ensures Kappa(human, judge, labels) == 1.0 <==> human == judge
    ensures Kappa(human, judge, labels) == -1.0 <==> Mirrored(|human|, a, b) && Crossed(|human|, a, b) != 0.0
    ensures Crossed(|human|, a, b) == 0.0 ==> human == judge && forall t | 0 <= t < |human| :: human[t] == human[0]
  {
    hide KappaOf;
    hide Crossed;
    hide Mirrored;
    var n := |human|;
    KappaOfBounds(n, a, b);
    CrossedZero(n, a, b);
    PositionsAgree(labels, human, judge);
    var p, q := Positions(labels, human), Positions(labels, judge);
    assert forall t | 0 <= t < n :: a(t) == p[t] as real && b(t) == q[t] as real;
    if forall t :: 0 <= t < n ==> a(t) == b(t) {
      forall t | 0 <= t < n ensures p[t] == q[t] { assert a(t) == b(t); }
      assert p == q;
    }
    if Crossed(n, a, b) == 0.0 {
      forall t | 0 <= t < n ensures p[t] == q[t] && human[t] == human[0] {
        assert a(t) == b(t) && a(t) == b(0) && a(0) == b(0);
        assert labels[p[t]] == human[t] && labels[p[0]] == human[0];
      }
      assert p == q;
    }
  }

  // ----- The confusion matrix -----

  /** Entry (r, c) of the confusion matrix after the first n items. */
  ghost function Cell(x: seq<nat>, y: seq<nat>, n: nat, r: int, c: int): real
    requires n <= |x| && n <= |y|
  {
    if n == 0 then 0.0 else Cell(x, y, n - 1, r, c) + (if x[n - 1] == r && y[n - 1] == c then 1.0 else 0.0)
  }

  /** How often a rater used position r in the first n items. */
  ghost function Hits(x: seq<nat>, n: nat, r: int): real
    requires n <= |x|
  {
    if n == 0 then 0.0 else Hits(x, n - 1, r) + (if x[n - 1] == r then 1.0 else 0.0)
  }

  ghost predicate Within(x: seq<nat>, k: nat) { forall t | 0 <= t < |x| :: x[t] < k }

  ghost function Row(x: seq<nat>, y: seq<nat>, n: nat, r: int): int -> real
    requires n <= |x| && n <= |y|
  { c => Cell(x, y, n, r, c) }

  ghost function Column(x: seq<nat>, y: seq<nat>, n: nat, c: int): int -> real
    requires n <= |x| && n <= |y|
  { r => Cell(x, y, n, r, c) }

  ghost function Spike(at: int, v: real): int -> real { i => if i == at then v else 0.0 }

  lemma SumSpike(k: nat, at: int, v: real)
    ensures Sum(k, Spike(at, v)) == if 0 <= at < k then v else 0.0
  {
    SumDelta(k, at, v, Spike(at, v));
  }

  lemma {:induction false} RowTotal(k: nat, x: seq<nat>, y: seq<nat>, n: nat, r: int)
    requires n <= |x| && n <= |y| && Within(y, k)
    ensures Sum(k, Row(x, y, n, r)) == Hits(x, n, r)
  {
    if n == 0 {
      SumCong(k, Row(x, y, n, r), Constant(0.0));
      SumConstant(k, 0.0);
    } else {
      RowTotal(k, x, y, n - 1, r);
      var spike := Spike(y[n - 1], if x[n - 1] == r then 1.0 else 0.0);
      SumCong(k, Row(x, y, n, r), Plus(Row(x, y, n - 1, r), spike));
      SumPlus(k, Row(x, y, n - 1, r), spike);
      SumSpike(k, y[n - 1], if x[n - 1] == r then 1.0 else 0.0);
    }
  }

  lemma {:induction false} ColumnTotal(k: nat, x: seq<nat>, y: seq<nat>, n: nat, c: int)
    requires n <= |x| && n <= |y| && Within(x, k)
    ensures Sum(k, Column(x, y, n, c)) == Hits(y, n, c)
  {
    if n == 0 {
      SumCong(k, Column(x, y, n, c), Constant(0.0));
      SumConstant(k, 0.0);
    } else {
      ColumnTotal(k, x, y, n - 1, c);
      var spike := Spike(x[n - 1], if y[n - 1] == c then 1.0 else 0.0);
      SumCong(k, Column(x, y, n, c), Plus(Column(x, y, n - 1, c), spike));
      SumPlus(k, Column(x, y, n - 1, c), spike);
      SumSpike(k, x[n - 1], if y[n - 1] == c then 1.0 else 0.0);
    }
  }

  /** `((row - col) / max_distance) ** 2` */
  function Weight(row: int, col: int, maxDistance: int): real
    requires maxDistance > 0
  {
    var d := (row - col) as real / maxDistance as real;
    d * d
  }

  ghost function ObservedRow(x: seq<nat>, y: seq<nat>, n: nat, m: int, r: int): int -> real
    requires n <= |x| && n <= |y| && m > 0
  { c => Weight(r, c, m) * Cell(x, y, n, r, c) }

  ghost function ObservedGrid(k: nat, x: seq<nat>, y: seq<nat>, n: nat, m: int): int -> real
    requires n <= |x| && n <= |y| && m > 0
  { r => Sum(k, ObservedRow(x, y, n, m, r)) }

  /** The weights of the first n items, read off item by item. */
  ghost function ItemWeights(x: seq<nat>, y: seq<nat>, m: int): int -> real
    requires m > 0
  { t => if 0 <= t < |x| && t < |y| then Weight(x[t], y[t], m) else 0.0 }

  lemma ObservedRowStep(k: nat, x: seq<nat>, y: seq<nat>, n: nat, m: int, r: int)
    requires 0 < n <= |x| && n <= |y| && m > 0 && Within(y, k)
    ensures Sum(k, ObservedRow(x, y, n, m, r))
         == Sum(k, ObservedRow(x, y, n - 1, m, r)) + (if r == x[n - 1] then Weight(r, y[n - 1], m) else 0.0)
  {
    var v := if r == x[n - 1] then Weight(r, y[n - 1], m) else 0.0;
    var spike := Spike(y[n - 1], v);
    forall c | 0 <= c < k
      ensures ObservedRow(x, y, n, m, r)(c) == Plus(ObservedRow(x, y, n - 1, m, r), spike)(c)
    {
      var hit := if x[n - 1] == r && y[n - 1] == c then 1.0 else 0.0;
      var w, cell := Weight(r, c, m), Cell(x, y, n - 1, r, c);
      hide Weight;
      Distribute(w, cell, hit);
    }
    SumCong(k, ObservedRow(x, y, n, m, r), Plus(ObservedRow(x, y, n - 1, m, r), spike));
    SumPlus(k, ObservedRow(x, y, n - 1, m, r), spike);
    SumSpike(k, y[n - 1], v);
  }

  /** Summing weight × count over the whole matrix is summing the weights of the items. */
  lemma {:induction false} MatrixSum(k: nat, x: seq<nat>, y: seq<nat>, n: nat, m: int)
    requires n <= |x| && n <= |y| && m > 0 && Within(x, k) && Within(y, k)
    ensures Sum(k, ObservedGrid(k, x, y, n, m)) == Sum(n, ItemWeights(x, y, m))
  {
    hide Weight;
    if n == 0 {
      forall r | 0 <= r < k ensures ObservedGrid(k, x, y, n, m)(r) == Constant(0.0)(r) {
        SumCong(k, ObservedRow(x, y, n, m, r), Constant(0.0));
        SumConstant(k, 0.0);
      }
      SumCong(k, ObservedGrid(k, x, y, n, m), Constant(0.0));
      SumConstant(k, 0.0);
    } else {
      MatrixSum(k, x, y, n - 1, m);
      var v := Weight(x[n - 1], y[n - 1], m);
      var before := ObservedGrid(k, x, y, n - 1, m);
      forall r | 0 <= r < k ensures ObservedGrid(k, x, y, n, m)(r) == Plus(before, Spike(x[n - 1], v))(r) {
        ObservedRowStep(k, x, y, n, m, r);
      }
      SumCong(k, ObservedGrid(k, x, y, n, m), Plus(before, Spike(x[n - 1], v)));
      SumPlus(k, before, Spike(x[n - 1], v));
      SumSpike(k, x[n - 1], v);
    }
  }

  // ----- The product of the marginals -----

  ghost function Weighted(x: seq<nat>, n: nat, g: int -> real): int -> real
    requires n <= |x|
  { r => g(r) * Hits(x, n, r) }

  ghost function Along(x: seq<nat>, g: int -> real): int -> real {
    t => if 0 <= t < |x| then g(x[t]) else 0.0
  }

  /** Summing g over positions with multiplicity is summing g over the items. */
  lemma {:induction false} MarginalSum(k: nat, x: seq<nat>, n: nat, g: int -> real)
    requires n <= |x| && Within(x, k)
    ensures Sum(k, Weighted(x, n, g)) == Sum(n, Along(x, g))
  {
    if n == 0 {
      assert forall r :: Weighted(x, n, g)(r) == g(r) * 0.0;
      SumCong(k, Weighted(x, n, g), Constant(0.0));
      SumConstant(k, 0.0);
    } else {
      MarginalSum(k, x, n - 1, g);
      var spike := Spike(x[n - 1], g(x[n - 1]));
      forall r | 0 <= r < k ensures Weighted(x, n, g)(r) == Plus(Weighted(x, n - 1, g), spike)(r) {
        Distribute(g(r), Hits(x, n - 1, r), if x[n - 1] == r then 1.0 else 0.0);
      }
      SumCong(k, Weighted(x, n, g), Plus(Weighted(x, n - 1, g), spike));
      SumPlus(k, Weighted(x, n - 1, g), spike);
      SumSpike(k, x[n - 1], g(x[n - 1]));
    }
  }

  ghost function WeightsFrom(r: int, m: int): int -> real
    requires m > 0
  { c => Weight(r, c, m) }

  ghost function WeightsToAll(y: seq<nat>, n: nat, m: int): int -> real
    requires m > 0
  { r => Sum(n, Along(y, WeightsFrom(r, m))) }

  /** `row_totals[row] * col_totals[col] / total` */
  ghost function Share(x: seq<nat>, y: seq<nat>, n: nat, r: int, c: int): real
    requires 0 < n <= |x| && n <= |y|
  { Ratio(Hits(x, n, r) * Hits(y, n, c), n as real) }

  lemma ShareOf(x: seq<nat>, y: seq<nat>, r: int, c: int, row: real, col: real)
    requires 0 < |x| == |y| && row == Hits(x, |x|, r) && col == Hits(y, |x|, c)
    ensures Ratio(row * col, |x| as real) == Share(x, y, |x|, r, c)
  {
    hide Ratio;
    hide Hits;
  }

  ghost function ExpectedRow(x: seq<nat>, y: seq<nat>, n: nat, m: int, r: int): int -> real
    requires 0 < n <= |x| && n <= |y| && m > 0
  { c => Weight(r, c, m) * Share(x, y, n, r, c) }

  ghost function ExpectedGrid(k: nat, x: seq<nat>, y: seq<nat>, n: nat, m: int): int -> real
    requires 0 < n <= |x| && n <= |y| && m > 0
  { r => Sum(k, ExpectedRow(x, y, n, m, r)) }

  lemma ProductOverTotal(w: real, h: real, g: real, n: real, i: real)
    requires n > 0.0 && i * n == 1.0
    ensures w * Ratio(h * g, n) == (i * h) * (w * g)
  {
    hide Ratio;
    InverseTimes(i, n, h * g);
    RatioUnique(h * g, n, i * (h * g));
    FourFactors(w, i, h, g);
  }

  lemma InverseTimes(i: real, n: real, q: real)
    requires i * n == 1.0
    ensures (i * q) * n == q
  {
    assert (i * q) * n == (i * n) * q;
  }

  lemma FourFactors(w: real, i: real, h: real, g: real)
    ensures w * (i * (h * g)) == (i * h) * (w * g)
  {
  }

  lemma ExpectedRowSum(k: nat, x: seq<nat>, y: seq<nat>, n: nat, m: int, r: int, i: real)
    requires 0 < n <= |x| && n <= |y| && m > 0 && Within(y, k) && i * n as real == 1.0
    ensures Sum(k, ExpectedRow(x, y, n, m, r)) == i * Hits(x, n, r) * WeightsToAll(y, n, m)(r)
  {
    hide *;
    var h, w := i * Hits(x, n, r), WeightsToAll(y, n, m)(r);
    var g := Weighted(y, n, WeightsFrom(r, m));
    forall c | 0 <= c < k ensures ExpectedRow(x, y, n, m, r)(c) == Scaled(h, g)(c) {
      ExpectedRowAt(x, y, n, m, r, c, i, h);
    }
    SumCong(k, ExpectedRow(x, y, n, m, r), Scaled(h, g));
    SumScaled(k, h, g);
    MarginalSum(k, y, n, WeightsFrom(r, m));
    WeightsToAllIs(y, n, m, r);
  }

  lemma ExpectedRowAt(x: seq<nat>, y: seq<nat>, n: nat, m: int, r: int, c: int, i: real, h: real)
    requires 0 < n <= |x| && n <= |y| && m > 0 && i * n as real == 1.0 && h == i * Hits(x, n, r)
    ensures ExpectedRow(x, y, n, m, r)(c) == Scaled(h, Weighted(y, n, WeightsFrom(r, m)))(c)
  {
    hide Weight;
    hide Hits;
    hide Ratio;
    ProductOverTotal(Weight(r, c, m), Hits(x, n, r), Hits(y, n, c), n as real, i);
  }

  lemma WeightsToAllIs(y: seq<nat>, n: nat, m: int, r: int)
    requires m > 0
    ensures WeightsToAll(y, n, m)(r) == Sum(n, Along(y, WeightsFrom(r, m)))
  {
  }

  /** The marginal-product sum of the matrix is the item-against-item sum over n. */
  lemma ExpectedSum(k: nat, x: seq<nat>, y: seq<nat>, n: nat, m: int, i: real)
    requires 0 < n <= |x| && n <= |y| && m > 0 && Within(x, k) && Within(y, k) && i * n as real == 1.0
    ensures Sum(k, ExpectedGrid(k, x, y, n, m)) == i * Sum(n, Along(x, WeightsToAll(y, n, m)))
  {
    hide *;
    var g := WeightsToAll(y, n, m);
    forall r | 0 <= r < k ensures ExpectedGrid(k, x, y, n, m)(r) == Scaled(i, Weighted(x, n, g))(r) {
      ExpectedGridAt(k, x, y, n, m, r, i, g);
    }
    SumCong(k, ExpectedGrid(k, x, y, n, m), Scaled(i, Weighted(x, n, g)));
    SumScaled(k, i, Weighted(x, n, g));
    MarginalSum(k, x, n, g);
  }

  lemma ExpectedGridAt(k: nat, x: seq<nat>, y: seq<nat>, n: nat, m: int, r: int, i: real, g: int -> real)
    requires 0 < n <= |x| && n <= |y| && m > 0 && Within(y, k) && i * n as real == 1.0 && g == WeightsToAll(y, n, m)
    ensures ExpectedGrid(k, x, y, n, m)(r) == Scaled(i, Weighted(x, n, g))(r)
  {
    hide Weight;
    hide Hits;
    hide Sum;
    hide WeightsToAll;
    ExpectedRowSum(k, x, y, n, m, r, i);
    Shuffle(i, Hits(x, n, r), g(r));
  }

  lemma Shuffle(i: real, h: real, g: real)
    ensures i * h * g == i * (g * h)
  {
  }

  // ----- From weights to squared distances -----

  lemma WeightIsScaledSquare(r: int, c: int, m: int, u: real)
    requires m > 0 && u == Sq(Ratio(1.0, m as real))
    ensures Weight(r, c, m) == u * Sq(r as real - c as real)
  {
    var i, d := Ratio(1.0, m as real), r as real - c as real;
    assert (r - c) as real == d;
    assert (r - c) as real / m as real == i * d by {
      hide Ratio;
      assert (i * d) * m as real == (i * m as real) * d;
    }
    SquareOfProduct(i, d);
  }

  lemma SquareOfProduct(i: real, d: real)
    ensures (i * d) * (i * d) == Sq(i) * Sq(d)
  {
    assert (i * d) * (i * d) == (i * i) * (d * d);
  }

  lemma ItemWeightsAreGaps(x: seq<nat>, y: seq<nat>, n: nat, m: int, u: real)
    requires n <= |x| && n <= |y| && m > 0 && u == Sq(Ratio(1.0, m as real))
    ensures Sum(n, ItemWeights(x, y, m)) == u * Matched(n, At(x), At(y))
  {
    hide Weight;
    hide Sq;
    forall t | 0 <= t < n ensures ItemWeights(x, y, m)(t) == Scaled(u, Gaps(At(x), At(y)))(t) {
      WeightIsScaledSquare(x[t], y[t], m, u);
    }
    SumCong(n, ItemWeights(x, y, m), Scaled(u, Gaps(At(x), At(y))));
    SumScaled(n, u, Gaps(At(x), At(y)));
  }

  lemma WeightsToAllAt(x: seq<nat>, y: seq<nat>, n: nat, m: int, u: real, s: nat)
    requires n <= |x| && n <= |y| && m > 0 && u == Sq(Ratio(1.0, m as real)) && s < n
    ensures WeightsToAll(y, n, m)(x[s]) == u * AgainstAll(n, At(x), At(y))(s)
  {
    hide Weight;
    hide Sq;
    var g := Deviations(At(y), At(x)(s));
    forall t | 0 <= t < n ensures Along(y, WeightsFrom(x[s], m))(t) == Scaled(u, g)(t) {
      WeightIsScaledSquare(x[s], y[t], m, u);
      SqNegate(x[s] as real - y[t] as real);
    }
    SumCong(n, Along(y, WeightsFrom(x[s], m)), Scaled(u, g));
    SumScaled(n, u, g);
  }

  lemma CrossWeightsAreCrossed(x: seq<nat>, y: seq<nat>, n: nat, m: int, u: real)
    requires n <= |x| && n <= |y| && m > 0 && u == Sq(Ratio(1.0, m as real))
    ensures Sum(n, Along(x, WeightsToAll(y, n, m))) == u * Crossed(n, At(x), At(y))
  {
    hide Sq;
    hide WeightsToAll;
    var g := AgainstAll(n, At(x), At(y));
    forall s | 0 <= s < n ensures Along(x, WeightsToAll(y, n, m))(s) == Scaled(u, g)(s) {
      WeightsToAllAt(x, y, n, m, u, s);
    }
    SumCong(n, Along(x, WeightsToAll(y, n, m)), Scaled(u, g));
    SumScaled(n, u, g);
  }

  lemma RatioUnique(p: real, c: real, q: real)
    requires c != 0.0 && q * c == p
    ensures q == Ratio(p, c)
  {
    hide Ratio;
    var d := q - Ratio(p, c);
    Distribute(c, q, -Ratio(p, c));
    assert d * c == 0.0;
    if d > 0.0 && c > 0.0 { MulPositive(d, c, d * c); }
    if d > 0.0 && c < 0.0 { MulPositive(d, -c, d * -c); }
    if d < 0.0 && c > 0.0 { MulPositive(-d, c, -d * c); }
    if d < 0.0 && c < 0.0 { MulPositive(-d, -c, -d * -c); }
  }

  /** The scale of the weights and the division by the item count cancel in the ratio. */
  lemma CancelScale(observed: real, expected: real, u: real, i: real, n: real, m: real, c: real)
    requires u > 0.0 && n > 0.0 && i * n == 1.0
    requires observed == u * m && expected == i * (u * c)
    ensures expected == 0.0 <==> c == 0.0
    ensures c != 0.0 ==> Ratio(observed, expected) == Ratio(n * m, c)
  {
    assert expected * n == u * c by { assert i * (u * c) * n == (i * n) * (u * c); }
    if c > 0.0 { MulPositive(u, c, u * c); }
    if c < 0.0 { MulPositive(u, -c, u * -c); }
    if c != 0.0 {
      assert expected != 0.0;
      var q := Ratio(n * m, c);
      calc {
        q * expected;
        q * (i * (u * c));
        (i * u) * (q * c);
        (i * u) * (n * m);
        (i * n) * (u * m);
        observed;
      }
      RatioUnique(observed, expected, q);
    }
  }

  lemma KappaOfRatio(n: nat, a: int -> real, b: int -> real, p: real, c: real)
    requires p == n as real * Matched(n, a, b) && c == Crossed(n, a, b)
    ensures c == 0.0 ==> KappaOf(n, a, b) == 1.0 && Matched(n, a, b) == 0.0
    ensures c != 0.0 ==> KappaOf(n, a, b) == 1.0 - Ratio(p, c)
  {
    hide *;
    CrossedZero(n, a, b);
    MatchedZero(n, a, b);
    KappaOfIs(n, a, b, p, c);
  }

  lemma PositiveInverseSquare(m: int, u: real)
    requires m > 0 && u == Sq(Ratio(1.0, m as real))
    ensures u > 0.0
  {
    hide Ratio;
    SqNonNeg(Ratio(1.0, m as real));
  }

  /** What the disagreement sums of the confusion matrix amount to. */
  lemma MatrixKappa(k: nat, x: seq<nat>, y: seq<nat>, n: nat, m: int, observed: real, expected: real)
    requires n > 0 && n == |x| == |y| && m > 0 && Within(x, k) && Within(y, k)
    requires observed == Sum(k, ObservedGrid(k, x, y, n, m))
    requires expected == Sum(k, ExpectedGrid(k, x, y, n, m))
    ensures expected == 0.0 ==> observed == 0.0 && KappaOf(n, At(x), At(y)) == 1.0
    ensures expected != 0.0 ==> KappaOf(n, At(x), At(y)) == 1.0 - Ratio(observed, expected)
  {
    hide *;
    var u, i := Sq(Ratio(1.0, m as real)), Ratio(1.0, n as real);
    var matched, crossed := Matched(n, At(x), At(y)), Crossed(n, At(x), At(y));
    var w := Sum(n, Along(x, WeightsToAll(y, n, m)));
    PositiveInverseSquare(m, u);
    MatrixSum(k, x, y, n, m);
    ItemWeightsAreGaps(x, y, n, m, u);
    ExpectedSum(k, x, y, n, m, i);
    CrossWeightsAreCrossed(x, y, n, m, u);
    var p := n as real * matched;
    KappaOfRatio(n, At(x), At(y), p, crossed);
    MatrixRatio(observed, expected, u, i, n as real, matched, crossed, w, p, KappaOf(n, At(x), At(y)));
  }

  lemma MatrixRatio(observed: real, expected: real, u: real, i: real, n: real, m: real, c: real, w: real, p: real,
                    kappa: real)
    requires u > 0.0 && n > 0.0 && i * n == 1.0 && p == n * m
    requires observed == u * m && w == u * c && expected == i * w
    requires c == 0.0 ==> kappa == 1.0 && m == 0.0
    requires c != 0.0 ==> kappa == 1.0 - Ratio(p, c)
    ensures expected == 0.0 ==> observed == 0.0 && kappa == 1.0
    ensures expected != 0.0 ==> kappa == 1.0 - Ratio(observed, expected)
  {
    hide *;
    CancelScale(observed, expected, u, i, n, m, c);
  }

  // ----- The computation -----

  /** `observed` filled item by item. */
  method ConfusionMatrix(x: seq<nat>, y: seq<nat>, size: nat) returns (observed: array2<real>)
    requires |x| == |y| && Within(x, size) && Within(y, size)
    ensures fresh(observed) && observed.Length0 == size && observed.Length1 == size
    ensures forall r, c | 0 <= r < size && 0 <= c < size :: observed[r, c] == Cell(x, y, |x|, r, c)
  {
    observed := new real[size, size]((_, _) => 0.0);
    for t := 0 to |x|
      invariant forall r, c | 0 <= r < size && 0 <= c < size :: observed[r, c] == Cell(x, y, t, r, c)
    {
      observed[x[t], y[t]] := observed[x[t], y[t]] + 1.0;
    }
  }

  method Marginals(observed: array2<real>, x: seq<nat>, y: seq<nat>, size: nat)
    returns (rowTotals: seq<real>, colTotals: seq<real>)
    requires |x| == |y| && Within(x, size) && Within(y, size)
    requires observed.Length0 == size && observed.Length1 == size
    requires forall r, c | 0 <= r < size && 0 <= c < size :: observed[r, c] == Cell(x, y, |x|, r, c)
    ensures |rowTotals| == |colTotals| == size
    ensures forall q | 0 <= q < size :: rowTotals[q] == Hits(x, |x|, q) && colTotals[q] == Hits(y, |x|, q)
  {
    rowTotals, colTotals := [], [];
    for r := 0 to size
      invariant |rowTotals| == |colTotals| == r
      invariant forall q | 0 <= q < r :: rowTotals[q] == Hits(x, |x|, q) && colTotals[q] == Hits(y, |x|, q)
    {
      var row, col := 0.0, 0.0;
      for c := 0 to size
        invariant row == Sum(c, Row(x, y, |x|, r)) && col == Sum(c, Column(x, y, |x|, r))
      {
        row, col := row + observed[r, c], col + observed[c, r];
      }
      RowTotal(size, x, y, |x|, r);
      ColumnTotal(size, x, y, |x|, r);
      rowTotals, colTotals := rowTotals + [row], colTotals + [col];
    }
  }

  method Disagreements(observed: array2<real>, rowTotals: seq<real>, colTotals: seq<real>,
                       x: seq<nat>, y: seq<nat>, size: nat, maxDistance: int)
    returns (observedDisagreement: real, expectedDisagreement: real)
    requires 0 < |x| == |y| && Within(x, size) && Within(y, size) && maxDistance > 0
    requires observed.Length0 == size && observed.Length1 == size && |rowTotals| == |colTotals| == size
    requires forall r, c | 0 <= r < size && 0 <= c < size :: observed[r, c] == Cell(x, y, |x|, r, c)
    requires forall q | 0 <= q < size :: rowTotals[q] == Hits(x, |x|, q) && colTotals[q] == Hits(y, |x|, q)
    ensures observedDisagreement == Sum(size, ObservedGrid(size, x, y, |x|, maxDistance))
    ensures expectedDisagreement == Sum(size, ExpectedGrid(size, x, y, |x|, maxDistance))
  {
    hide Weight;
    hide Hits;
    hide Cell;
    hide Ratio;
    hide Share;
    var total := |x| as real;
    observedDisagreement, expectedDisagreement := 0.0, 0.0;
    for row := 0 to size
      invariant observedDisagreement == Sum(row, ObservedGrid(size, x, y, |x|, maxDistance))
      invariant expectedDisagreement == Sum(row, ExpectedGrid(size, x, y, |x|, maxDistance))
    {
      var o, e := observedDisagreement, expectedDisagreement;
      for col := 0 to size
        invariant observedDisagreement == o + Sum(col, ObservedRow(x, y, |x|, maxDistance, row))
        invariant expectedDisagreement == e + Sum(col, ExpectedRow(x, y, |x|, maxDistance, row))
      {
        var weight := Weight(row, col, maxDistance);
        ShareOf(x, y, row, col, rowTotals[row], colTotals[col]);
        observedDisagreement := observedDisagreement + weight * observed[row, col];
        expectedDisagreement := expectedDisagreement + weight * Ratio(rowTotals[row] * colTotals[col], total);
      }
    }
  }

  method WeightedCohenKappa(human: seq<int>, judge: seq<int>, labels: seq<int>) returns (r: Result<real>)
    ensures !Scorable(human, judge, labels) ==> r == Err(ValueError)
    ensures Scorable(human, judge, labels) ==> r == Ok(Kappa(human, judge, labels))
  {
    hide KappaOf;
    hide Ratio;
    hide IsClose;
    hide Sum;
    hide LabelIndex;
    if |human| != |judge| || human == [] { return Err(ValueError); }
    if exists s | s in human + judge :: s !in labels { return Err(ValueError); }
    ScorableParts(human, judge, labels);
    var x, y := Positions(labels, human), Positions(labels, judge);
    var size := |labels|;
    var observed := ConfusionMatrix(x, y, size);
    var rowTotals, colTotals := Marginals(observed, x, y, size);
    var maxDistance := if size - 1 > 1 then size - 1 else 1;
    var observedDisagreement, expectedDisagreement :=
      Disagreements(observed, rowTotals, colTotals, x, y, size, maxDistance);
    MatrixKappa(size, x, y, |x|, maxDistance, observedDisagreement, expectedDisagreement);
    CloseToZero(expectedDisagreement);
    CloseToZero(observedDisagreement);
    if IsClose(expectedDisagreement, 0.0) {
      return Ok(if IsClose(observedDisagreement, 0.0) then 1.0 else 0.0);
    }
    return Ok(1.0 - Ratio(observedDisagreement, expectedDisagreement));
  }
}
