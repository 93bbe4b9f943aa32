/** The exact two-sided McNemar p-value and the verdict drawn from it
    (eval/judge_model_migration.py). */
module McNemar {

  /** `math.comb` */
  function Comb(n: nat, k: nat): nat {
    if k == 0 then 1 else if n == 0 then 0 else Comb(n - 1, k - 1) + Comb(n - 1, k)
  }

  function HalfPower(n: nat): real { if n == 0 then 1.0 else 0.5 * HalfPower(n - 1) }

  /** `sum(comb(n, k) * 0.5 ** n for k in range(0, m + 1))` */
  function TailProbability(n: nat, m: nat): real {
    Comb(n, m) as real * HalfPower(n) + (if m == 0 then 0.0 else TailProbability(n, m - 1))
  }

  function Min(b: nat, c: nat): nat { if b <= c then b else c }

  function PValue(b: nat, c: nat): real {
    if b + c == 0 then 1.0
    else
      var doubled := 2.0 * TailProbability(b + c, Min(b, c));
      if doubled < 1.0 then doubled else 1.0
  }

  datatype Verdict = Regressed | Improved | NoEvidence

  function VerdictOf(b: nat, c: nat): Verdict {
    if PValue(b, c) < 0.05 && b > c then Regressed
    else if PValue(b, c) < 0.05 && c > b then Improved
    else NoEvidence
  }

  // ----- Counting subsets -----

  function PowerOfTwo(n: nat): nat { if n == 0 then 1 else 2 * PowerOfTwo(n - 1) }

  /** How many subsets of n elements have at most m members. */
  function Tail(n: nat, m: nat): nat {
    Comb(n, m) + (if m == 0 then 0 else Tail(n, m - 1))
  }

  lemma {:induction false} CombVanishes(n: nat, k: nat)
    requires k > n
    ensures Comb(n, k) == 0
  {
    if n > 0 { CombVanishes(n - 1, k - 1); CombVanishes(n - 1, k); }
  }

  lemma {:induction false} CombPositive(n: nat, k: nat)
    requires k <= n
    ensures Comb(n, k) > 0
  {
    if k > 0 { CombPositive(n - 1, k - 1); }
  }

  lemma {:induction false} CombSymmetric(n: nat, k: nat)
    requires k <= n
    ensures Comb(n, k) == Comb(n, n - k)
    decreases n
  {
    if k == 0 || k == n {
      CombEnds(n);
    } else {
      CombSymmetric(n - 1, k - 1);
      CombSymmetric(n - 1, k);
    }
  }

  lemma {:induction false} CombEnds(n: nat)
    ensures Comb(n, n) == 1 && Comb(n, 0) == 1
  {
    if n > 0 { CombEnds(n - 1); CombVanishes(n - 1, n); }
  }

  /** Pascal's rule summed: adding an element doubles a tail, up to its last column. */
  lemma {:induction false} TailGrows(n: nat, m: nat)
    ensures Tail(n + 1, m) == 2 * Tail(n, m) - Comb(n, m)
  {
    if m > 0 { TailGrows(n, m - 1); }
  }

  lemma {:induction false} FullTail(n: nat, m: nat)
    requires m >= n
    ensures Tail(n, m) == PowerOfTwo(n)
    decreases n, m
  {
    if m > n {
      CombVanishes(n, m);
      FullTail(n, m - 1);
    } else if n > 0 {
      FullTail(n - 1, n);
      TailGrows(n - 1, n);
      CombVanishes(n - 1, n);
    }
  }

  /** The subsets of at most m members and those of at most n−1−m split all subsets. */
  lemma {:induction false} Reflection(n: nat, m: nat)
    requires m < n
    ensures Tail(n, m) + Tail(n, n - 1 - m) == PowerOfTwo(n)
  {
    if m == 0 {
      FullTail(n, n);
      CombEnds(n);
    } else {
      Reflection(n, m - 1);
      CombSymmetric(n, m);
    }
  }

  lemma {:induction false} TailIncreases(n: nat, m: nat, k: nat)
    requires m < k <= n
    ensures Tail(n, m) < Tail(n, k)
  {
    CombPositive(n, k);
    if m < k - 1 { TailIncreases(n, m, k - 1); }
  }

  // ----- The probability as a count -----

  lemma {:induction false} HalfPowerInverse(n: nat)
    ensures HalfPower(n) * PowerOfTwo(n) as real == 1.0
  {
    if n > 0 {
      HalfPowerInverse(n - 1);
      var h, p := HalfPower(n - 1), PowerOfTwo(n - 1) as real;
      assert PowerOfTwo(n) as real == 2.0 * p;
      assert (0.5 * h) * (2.0 * p) == h * p;
    }
  }

  lemma TailTerm(c: real, h: real, p: real, t: real)
    requires h * p == 1.0
    ensures (c * h + t) * p == c + t * p
  {
    assert c * h * p == c * (h * p);
  }

  lemma {:induction false} TailCount(n: nat, m: nat)
    ensures TailProbability(n, m) * PowerOfTwo(n) as real == Tail(n, m) as real
  {
    hide Comb;
    hide PowerOfTwo;
    hide HalfPower;
    HalfPowerInverse(n);
    if m > 0 { TailCount(n, m - 1); }
    TailTerm(Comb(n, m) as real, HalfPower(n), PowerOfTwo(n) as real,
        if m == 0 then 0.0 else TailProbability(n, m - 1));
  }

  lemma {:induction false} PowerPositive(n: nat)
    ensures PowerOfTwo(n) >= 1
  {
    if n > 0 { PowerPositive(n - 1); }
  }

  /** Comparing a tail probability with a fraction is comparing counts. */
  lemma CompareTail(n: nat, m: nat, num: nat, den: nat)
    requires den > 0
    ensures den as real * TailProbability(n, m) < num as real <==> den * Tail(n, m) < num * PowerOfTwo(n)
    ensures den as real * TailProbability(n, m) == num as real <==> den * Tail(n, m) == num * PowerOfTwo(n)
  {
    TailCount(n, m);
    PowerPositive(n);
    var t, p, d, q := TailProbability(n, m), PowerOfTwo(n) as real, den as real, num as real;
    hide *;
    ScaleOrder(d * t, q, p);
    assert d * t * p == d * (t * p);
    assert (den * Tail(n, m)) as real == d * Tail(n, m) as real;
    assert (num * PowerOfTwo(n)) as real == q * p;
  }

  lemma ScaleOrder(x: real, y: real, p: real)
    requires p >= 1.0
    ensures x < y <==> x * p < y * p
    ensures x == y <==> x * p == y * p
  {
    if x < y { StrictScale(x, y, p); }
    if y < x { StrictScale(y, x, p); }
  }

  lemma StrictScale(x: real, y: real, p: real)
    requires p >= 1.0 && x < y
    ensures x * p < y * p
  {
    var d := y - x;
    assert y * p == x * p + d * p;
    assert d * p == d + d * (p - 1.0);
    assert d * (p - 1.0) >= 0.0;
  }

  // ----- The p-value -----

  /** Twice the smaller tail against all outcomes, as counts. */
  lemma DoubledTail(b: nat, c: nat)
    requires b + c > 0
    ensures b == c ==> 2 * Tail(b + c, Min(b, c)) > PowerOfTwo(b + c)
    ensures (b - c == 1 || c - b == 1) ==> 2 * Tail(b + c, Min(b, c)) == PowerOfTwo(b + c)
    ensures (b - c >= 2 || c - b >= 2) ==> 2 * Tail(b + c, Min(b, c)) < PowerOfTwo(b + c)
  {
    var n, m := b + c, Min(b, c);
    if b == c {
      Reflection(n, m - 1);
      CombPositive(n, m);
    } else {
      Reflection(n, m);
      if m < n - 1 - m { TailIncreases(n, m, n - 1 - m); }
    }
  }

  lemma {:induction false} TailProbabilityPositive(n: nat, m: nat)
    requires m <= n
    ensures TailProbability(n, m) > 0.0
  {
    TailCount(n, m);
    PowerPositive(n);
    CombPositive(n, m);
    var t, p, count := TailProbability(n, m), PowerOfTwo(n) as real, Tail(n, m) as real;
    if t <= 0.0 { assert t * p <= 0.0 * p; }
  }

  /** The p-value is symmetric, lies in (0, 1], and is 1 exactly for splits differing by at
      most one; the cap at 1 changes the doubled tail only for even, non-empty splits. */
  lemma PValueRange(b: nat, c: nat)
    ensures PValue(b, c) == PValue(c, b)
    ensures 0.0 < PValue(b, c) <= 1.0
    ensures PValue(b, c) == 1.0 <==> -1 <= b - c <= 1
    ensures b + c > 0 ==> (PValue(b, c) != 2.0 * TailProbability(b + c, Min(b, c)) <==> b == c)
  {
    var n, m := b + c, Min(b, c);
    if n > 0 {
      DoubledTail(b, c);
      CompareTail(n, m, 1, 2);
      TailProbabilityPositive(n, m);
    }
  }

  /** Significance at 0.05 as a comparison of counts. */
  lemma SignificantCount(b: nat, c: nat)
    ensures PValue(b, c) < 0.05 <==> 40 * Tail(b + c, Min(b, c)) < PowerOfTwo(b + c)
  {
    if b + c > 0 { CompareTail(b + c, Min(b, c), 1, 40); }
  }

  // ----- The verdict -----

  lemma VerdictSwap(b: nat, c: nat)
    ensures VerdictOf(b, c) == Regressed <==> VerdictOf(c, b) == Improved
    ensures VerdictOf(b, c) == NoEvidence <==> VerdictOf(c, b) == NoEvidence
  {
    PValueRange(b, c);
  }

  /** More evidence in the leading direction lowers the p-value, more in the trailing
      direction raises it. */
  lemma PValueMoves(b: nat, c: nat)
    requires b > c
    ensures PValue(b + 1, c) < PValue(b, c)
    ensures b > c + 1 ==> PValue(b, c) < PValue(b, c + 1)
  {
    hide *;
    var n := b + c;
    Uncapped(b, c);
    Uncapped(b + 1, c);
    assert (b + 1) + c == n + 1 && b + (c + 1) == n + 1;
    TailGrows(n, c);
    CombPositive(n, c);
    TailCount(n + 1, c);
    HalfStep(n, c, Tail(n + 1, c), TailProbability(n + 1, c));
    if b > c + 1 {
      Uncapped(b, c + 1);
      TailNext(n, c);
      TailCount(n + 1, c + 1);
      HalfStep(n, c, Tail(n + 1, c + 1), TailProbability(n + 1, c + 1));
    }
  }

  lemma Uncapped(b: nat, c: nat)
    requires b > c
    ensures PValue(b, c) == 2.0 * TailProbability(b + c, c)
  {
    PValueRange(b, c);
    hide PValue;
    hide TailProbability;
  }

  lemma TailNext(n: nat, c: nat)
    requires c < n
    ensures Tail(n + 1, c + 1) > 2 * Tail(n, c)
  {
    TailGrows(n, c + 1);
    CombPositive(n, c + 1);
  }

  lemma PowerDoubles(n: nat)
    ensures PowerOfTwo(n + 1) == 2 * PowerOfTwo(n)
  {
  }

  /** A tail over n + 1 elements against the tail over n, both as probabilities. */
  lemma HalfStep(n: nat, m: nat, count: nat, q: real)
    requires q * PowerOfTwo(n + 1) as real == count as real
    ensures count < 2 * Tail(n, m) ==> q < TailProbability(n, m)
    ensures count > 2 * Tail(n, m) ==> q > TailProbability(n, m)
  {
    hide *;
    PowerDoubles(n);
    TailCount(n, m);
    PowerPositive(n);
    HalfStepArithmetic(q, TailProbability(n, m), PowerOfTwo(n) as real, PowerOfTwo(n + 1) as real, count as real,
        Tail(n, m) as real);
  }

  lemma HalfStepArithmetic(q: real, t: real, p: real, p2: real, count: real, tail: real)
    requires p >= 1.0 && p2 == 2.0 * p && q * p2 == count && t * p == tail
    ensures count < 2.0 * tail ==> q < t
    ensures count > 2.0 * tail ==> q > t
  {
    ScaleOrder(q, t, p);
    ScaleOrder(t, q, p);
    assert q * p2 == 2.0 * (q * p);
  }

  /** One more case that only the baseline got right never clears a regression, and one
      more that only the candidate got right never creates one. */
  lemma VerdictMonotone(b: nat, c: nat)
    ensures VerdictOf(b, c) == Regressed ==> VerdictOf(b + 1, c) == Regressed
    ensures VerdictOf(b, c + 1) == Regressed ==> VerdictOf(b, c) == Regressed
    ensures VerdictOf(b, c) == Improved ==> VerdictOf(b, c + 1) == Improved
    ensures VerdictOf(b + 1, c) == Improved ==> VerdictOf(b, c) == Improved
  {
    hide PValue;
    if b > c { PValueMoves(b, c); }
    if c > b { PValueMoves(c, b); }
    PValueRange(b, c);
    PValueRange(b + 1, c);
    PValueRange(b, c + 1);
  }

  lemma {:induction false} PowerGrows(n: nat, m: nat)
    requires n <= m
    ensures PowerOfTwo(n) <= PowerOfTwo(m)
  {
    if n < m { PowerGrows(n, m - 1); }
  }

  lemma {:induction false} TailAtLeastOne(n: nat, m: nat)
    ensures Tail(n, m) >= 1
  {
    if m > 0 { TailAtLeastOne(n, m - 1); }
  }

  /** Some split of n discordant pairs reaches a verdict exactly when n ≥ 6. */
  lemma SixPairs(n: nat)
    ensures (exists b: nat, c: nat :: b + c == n && VerdictOf(b, c) != NoEvidence) <==> n >= 6
  {
    assert PowerOfTwo(6) == 64;
    if n >= 6 {
      PowerGrows(6, n);
      SignificantCount(n, 0);
      assert n + 0 == n && VerdictOf(n, 0) == Regressed;
    } else {
      assert PowerOfTwo(5) == 32;
      PowerGrows(n, 5);
      forall b: nat, c: nat | b + c == n ensures VerdictOf(b, c) == NoEvidence {
        SignificantCount(b, c);
        TailAtLeastOne(n, Min(b, c));
      }
    }
  }
}
