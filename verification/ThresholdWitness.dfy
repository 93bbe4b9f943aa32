/** Ratings that pass the kappa gate only because their kappa is rounded before it is compared
    (eval/judge_validation.py). */
module ThresholdWitness {
  import opened Rubric
  import opened Rounding
  import opened Sums
  import opened Agreement

  /** Seventeen pairs of ratings, as positions on the scale. */
  function HumanAt(t: int): nat { if t < 10 then 0 else if t < 12 then 1 else 2 }

  function JudgeAt(t: int): nat { if t < 9 || t == 10 || t == 12 then 0 else if t == 13 then 1 else 2 }

  function Human(): seq<int> { seq(17, t => HumanAt(t) + 1) }

  function Judge(): seq<int> { seq(17, t => JudgeAt(t) + 1) }

  datatype Moment = Humans | HumanSquares | Judges | JudgeSquares | Distances

  function Term(k: Moment, t: int): int {
    match k
    case Humans => HumanAt(t)
    case HumanSquares => HumanAt(t) * HumanAt(t)
    case Judges => JudgeAt(t)
    case JudgeSquares => JudgeAt(t) * JudgeAt(t)
    case Distances => (HumanAt(t) - JudgeAt(t)) * (HumanAt(t) - JudgeAt(t))
  }

  function Total(k: Moment, n: nat): int { if n == 0 then 0 else Total(k, n - 1) + Term(k, n - 1) }

  lemma {:induction false} SumIsTotal(k: Moment, n: nat, f: int -> real)
    requires forall t | 0 <= t < n :: f(t) == Term(k, t) as real
    ensures Sum(n, f) == Total(k, n) as real
  {
    if n > 0 { SumIsTotal(k, n - 1, f); }
  }

  /** The first nine pairs are both 1. */
  lemma {:induction false} FirstNine(k: Moment, n: nat)
    requires n <= 9
    ensures Total(k, n) == 0
  {
    if n > 0 { FirstNine(k, n - 1); }
  }

  lemma LastEight(k: Moment)
    ensures Total(k, 17) == Term(k, 9) + Term(k, 10) + Term(k, 11) + Term(k, 12)
                            + Term(k, 13) + Term(k, 14) + Term(k, 15) + Term(k, 16)
  {
    FirstNine(k, 9);
    hide Term;
    assert Total(k, 11) == Term(k, 9) + Term(k, 10);
    assert Total(k, 13) == Total(k, 11) + Term(k, 11) + Term(k, 12);
    assert Total(k, 15) == Total(k, 13) + Term(k, 13) + Term(k, 14);
  }

  lemma Totals()
    ensures Total(Humans, 17) == 12 && Total(HumanSquares, 17) == 22
    ensures Total(Judges, 17) == 11 && Total(JudgeSquares, 17) == 21 && Total(Distances, 17) == 11
  {
    hide Total;
    LastEight(Humans);
    LastEight(HumanSquares);
    LastEight(Judges);
    LastEight(JudgeSquares);
    LastEight(Distances);
  }

  lemma OnPositions()
    ensures (forall s | s in Human() :: s in ORDINAL_SCORES) && forall s | s in Judge() :: s in ORDINAL_SCORES
    ensures forall t | 0 <= t < 17 :: At(Positions(ORDINAL_SCORES, Human()))(t) == HumanAt(t) as real
    ensures forall t | 0 <= t < 17 :: At(Positions(ORDINAL_SCORES, Judge()))(t) == JudgeAt(t) as real
  {
    assert ORDINAL_SCORES[0] == 1 && ORDINAL_SCORES[1] == 2 && ORDINAL_SCORES[2] == 3;
  }

  lemma TermsAt(t: int, x: real, y: real)
    requires x == HumanAt(t) as real && y == JudgeAt(t) as real
    ensures Sq(x) == Term(HumanSquares, t) as real && Sq(y) == Term(JudgeSquares, t) as real
    ensures Sq(x - y) == Term(Distances, t) as real
  {
    assert x == 0.0 || x == 1.0 || x == 2.0;
    assert y == 0.0 || y == 1.0 || y == 2.0;
  }

  lemma SumsOfSeventeen(a: int -> real, b: int -> real)
    requires forall t | 0 <= t < 17 :: a(t) == HumanAt(t) as real && b(t) == JudgeAt(t) as real
    ensures Sum(17, a) == 12.0 && Sum(17, b) == 11.0
    ensures Sum(17, Squares(a)) == 22.0 && Sum(17, Squares(b)) == 21.0 && Matched(17, a, b) == 11.0
  {
    hide HumanAt;
    hide JudgeAt;
    hide Sum;
    hide Sq;
    hide Total;
    Totals();
    SumIsTotal(Humans, 17, a);
    SumIsTotal(Judges, 17, b);
    forall t | 0 <= t < 17
      ensures Squares(a)(t) == Term(HumanSquares, t) as real && Squares(b)(t) == Term(JudgeSquares, t) as real
      ensures Gaps(a, b)(t) == Term(Distances, t) as real
    {
      TermsAt(t, a(t), b(t));
    }
    hide Term;
    SumIsTotal(HumanSquares, 17, Squares(a));
    SumIsTotal(JudgeSquares, 17, Squares(b));
    SumIsTotal(Distances, 17, Gaps(a, b));
  }

  lemma CrossedOfSeventeen(a: int -> real, b: int -> real)
    requires forall t | 0 <= t < 17 :: a(t) == HumanAt(t) as real && b(t) == JudgeAt(t) as real
    ensures Crossed(17, a, b) == 467.0
  {
    hide *;
    SumsOfSeventeen(a, b);
    CrossedExpansion(17, a, b, 21.0, -22.0);
  }

  lemma KappaOfSeventeen(a: int -> real, b: int -> real, kappa: real)
    requires forall t | 0 <= t < 17 :: a(t) == HumanAt(t) as real && b(t) == JudgeAt(t) as real
    requires kappa == KappaOf(17, a, b)
    ensures kappa * 467.0 == 280.0
  {
    hide *;
    SumsOfSeventeen(a, b);
    CrossedOfSeventeen(a, b);
    KappaOfIs(17, a, b, 187.0, 467.0);
    assert (1.0 - Ratio(187.0, 467.0)) * 467.0 == 467.0 - 187.0;
  }

  /** Their kappa is 280/467: below 0.6, and at the floor once rounded. */
  lemma RoundedIntoTheGate()
    ensures Scorable(Human(), Judge(), ORDINAL_SCORES)
    ensures 0.5995 <= Kappa(Human(), Judge(), ORDINAL_SCORES) < 0.6
    ensures Round3(Kappa(Human(), Judge(), ORDINAL_SCORES)) == 0.6
  {
    OnPositions();
    var a, b := At(Positions(ORDINAL_SCORES, Human())), At(Positions(ORDINAL_SCORES, Judge()));
    assert |Human()| == |Judge()| == 17;
    var kappa := Kappa(Human(), Judge(), ORDINAL_SCORES);
    assert kappa == KappaOf(17, a, b);
    hide *;
    KappaOfSeventeen(a, b, kappa);
    RoundsUp(kappa);
  }

  lemma RoundsUp(kappa: real)
    requires kappa * 467.0 == 280.0
    ensures 0.5995 <= kappa < 0.6 && Round3(kappa) == 0.6
  {
  }
}
