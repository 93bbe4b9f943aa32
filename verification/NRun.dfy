/** N-run aggregation of a non-deterministic judge (eval/judge_nrun.py). */
module NRun {
  import opened Rubric
  import opened Rounding
  import opened Sequencing

  datatype Aggregate = Aggregate(vector: Vector, aggregatePass: bool, passRate: real, indeterminate: bool, nRuns: nat)

  function Column(vectors: seq<Vector>, d: Dim): (col: seq<int>)
    requires Known(d)
    ensures |col| == |vectors|
  {
    seq(|vectors|, i requires 0 <= i < |vectors| => vectors[i][d])
  }

  function MinOf(col: seq<int>): (r: int)
    requires col != []
    ensures r in col && forall s | s in col :: r <= s
  {
    if |col| == 1 then col[0]
    else
      var rest := MinOf(col[1..]);
      assert col == [col[0]] + col[1..];
      if col[0] <= rest then col[0] else rest
  }

  /** `max(counts.values())` */
  function TopCount(counts: multiset<int>, col: seq<int>): (top: nat)
    requires col != []
    ensures exists s | s in col :: counts[s] == top
    ensures forall s | s in col :: counts[s] <= top
  {
    if |col| == 1 then counts[col[0]]
    else
      var rest := TopCount(counts, col[1..]);
      assert col == [col[0]] + col[1..];
      assert exists s | s in col :: counts[s] == rest by {
        var s :| s in col[1..] && counts[s] == rest;
        assert s in col;
      }
      var first := col[0];
      assert first in col;
      if counts[first] >= rest then
        assert exists s | s in col :: counts[s] == counts[first];
        counts[first]
      else rest
  }

  function WithCount(counts: multiset<int>, col: seq<int>, top: nat): (r: seq<int>)
    ensures forall s :: s in r <==> s in col && counts[s] == top
  {
    if col == [] then []
    else
      assert col == [col[0]] + col[1..];
      (if counts[col[0]] == top then [col[0]] else []) + WithCount(counts, col[1..], top)
  }

  /** The most frequent score, ties broken toward the lower one. */
  predicate IsLowMode(col: seq<int>, r: int) {
    var counts := multiset(col);
    r in col && forall s | s in col :: counts[s] < counts[r] || (counts[s] == counts[r] && r <= s)
  }

  function Mode(col: seq<int>): (r: int)
    requires col != []
    ensures IsLowMode(col, r)
  {
    var counts := multiset(col);
    var top := TopCount(counts, col);
    var best := WithCount(counts, col, top);
    assert best != [] by { var s :| s in col && counts[s] == top; assert s in best; }
    MinOf(best)
  }

  lemma LowModeUnique(a: seq<int>, b: seq<int>, r: int, s: int)
    requires multiset(a) == multiset(b) && IsLowMode(a, r) && IsLowMode(b, s)
    ensures r == s
  {
    assert r in multiset(a) && s in multiset(b);
    assert r in b && s in a;
  }

  function Combine(d: Dim, col: seq<int>): int
    requires col != []
  {
    if d == Safety then MinOf(col) else Mode(col)
  }

  function AggregateVector(vectors: seq<Vector>): Vector
    requires vectors != []
  {
    map d | d in KNOWN :: Combine(d, Column(vectors, d))
  }

  /** How many runs pass on their own. */
  function PassCount(vectors: seq<Vector>): (n: nat)
    ensures n <= |vectors|
  {
    if vectors == [] then 0 else (if OverallPass(vectors[0]) then 1 else 0) + PassCount(vectors[1..])
  }

  function AggregateOf(vectors: seq<Vector>): Aggregate
    requires vectors != []
  {
    var agg := AggregateVector(vectors);
    var passes := PassCount(vectors);
    Aggregate(agg, OverallPass(agg), Round3(passes as real / |vectors| as real),
              0 < passes < |vectors|, |vectors|)
  }

  method AggregateRuns(vectors: seq<Vector>) returns (r: Result<Aggregate>)
    ensures vectors == [] ==> r == Err(ValueError)
    ensures vectors != [] ==> r == Ok(AggregateOf(vectors))
  {
    if vectors == [] { return Err(ValueError); }
    var agg := FillVector(vectors);
    var passes := CountPasses(vectors);
    return Ok(Aggregate(agg, OverallPass(agg), Round3(passes as real / |vectors| as real),
                        0 < passes < |vectors|, |vectors|));
  }

  /** `agg` filled dimension by dimension. */
  method FillVector(vectors: seq<Vector>) returns (agg: Scores)
    requires vectors != []
    ensures agg == AggregateVector(vectors)
  {
    hide Combine;
    agg := map[];
    for i := 0 to |QUALITY_DIMENSIONS|
      invariant forall d :: d in agg <==> d in QUALITY_DIMENSIONS[..i]
      invariant forall d | d in agg :: Known(d) && agg[d] == Combine(d, Column(vectors, d))
    {
      var dim := QUALITY_DIMENSIONS[i];
      KnownDimensions(dim);
      assert QUALITY_DIMENSIONS[..i + 1] == QUALITY_DIMENSIONS[..i] + [dim];
      agg := agg[dim := Combine(dim, Column(vectors, dim))];
    }
    forall d ensures d in agg <==> d in KNOWN { KnownDimensions(d); }
  }

  method CountPasses(vectors: seq<Vector>) returns (passes: nat)
    ensures passes == PassCount(vectors)
  {
    hide OverallPass;
    passes := 0;
    for i := 0 to |vectors|
      invariant passes + PassCount(vectors[i..]) == PassCount(vectors)
    {
      assert vectors[i..][1..] == vectors[i + 1..];
      if OverallPass(vectors[i]) { passes := passes + 1; }
    }
  }

  // ----- Order of the runs -----

  lemma ColumnConcat(a: seq<Vector>, b: seq<Vector>, d: Dim)
    requires Known(d)
    ensures Column(a + b, d) == Column(a, d) + Column(b, d)
  {
  }

  lemma {:induction false} PassCountConcat(a: seq<Vector>, b: seq<Vector>)
    ensures PassCount(a + b) == PassCount(a) + PassCount(b)
  {
    if a == [] {
      assert a + b == b;
    } else {
      assert (a + b)[1..] == a[1..] + b;
      PassCountConcat(a[1..], b);
    }
  }

  function Without(runs: seq<Vector>, i: nat): seq<Vector>
    requires i < |runs|
  {
    runs[..i] + runs[i + 1..]
  }

  lemma SplitAt<T>(s: seq<T>, i: nat)
    requires i < |s|
    ensures s == s[..i] + ([s[i]] + s[i + 1..])
    ensures multiset(s) == multiset{s[i]} + multiset(s[..i] + s[i + 1..])
  {
    assert s == s[..i] + ([s[i]] + s[i + 1..]);
  }

  lemma WithoutParts(runs: seq<Vector>, i: nat)
    requires i < |runs|
    ensures Without(runs, i) == runs[..i] + runs[i + 1..]
  {
  }

  lemma ColumnOne(v: Vector, d: Dim)
    requires Known(d)
    ensures Column([v], d) == [v[d]]
  {
  }

  lemma RemoveRun(runs: seq<Vector>, i: nat, d: Dim)
    requires i < |runs| && Known(d)
    ensures multiset(Column(runs, d)) == multiset{runs[i][d]} + multiset(Column(Without(runs, i), d))
    ensures PassCount(runs) == PassCount([runs[i]]) + PassCount(Without(runs, i))
    ensures multiset(runs) == multiset{runs[i]} + multiset(Without(runs, i))
  {
    hide *;
    var before, after := runs[..i], runs[i + 1..];
    SplitAt(runs, i);
    WithoutParts(runs, i);
    ColumnConcat(before, [runs[i]] + after, d);
    ColumnConcat([runs[i]], after, d);
    ColumnConcat(before, after, d);
    ColumnOne(runs[i], d);
    PassCountConcat(before, [runs[i]] + after);
    PassCountConcat([runs[i]], after);
    PassCountConcat(before, after);
  }

  lemma {:induction false} PermutedRuns(a: seq<Vector>, b: seq<Vector>, d: Dim)
    requires multiset(a) == multiset(b) && Known(d)
    ensures multiset(Column(a, d)) == multiset(Column(b, d))
    ensures |a| == |b| && PassCount(a) == PassCount(b)
    decreases |a|
  {
    hide *;
    assert |multiset(a)| == |a| && |multiset(b)| == |b|;
    if a == [] {
      assert a == b;
    } else {
      assert a[0] in multiset(b);
      var i :| 0 <= i < |b| && b[i] == a[0];
      RemoveRun(a, 0, d);
      RemoveRun(b, i, d);
      assert multiset(Without(a, 0)) == multiset(a) - multiset{a[0]};
      assert multiset(Without(b, i)) == multiset(b) - multiset{b[i]};
      PermutedRuns(Without(a, 0), Without(b, i), d);
    }
  }

  lemma MinOfUnique(a: seq<int>, b: seq<int>)
    requires a != [] && multiset(a) == multiset(b)
    ensures b != [] && MinOf(a) == MinOf(b)
  {
    assert |multiset(a)| == |a| && |multiset(b)| == |b|;
    assert MinOf(a) in multiset(b) && MinOf(b) in multiset(a);
    assert MinOf(a) in b && MinOf(b) in a;
  }

  /** The aggregate does not depend on the order of the runs. */
  lemma OrderIrrelevant(a: seq<Vector>, b: seq<Vector>)
    requires a != [] && multiset(a) == multiset(b)
    ensures b != [] && AggregateOf(a) == AggregateOf(b)
  {
    hide Mode;
    hide PassCount;
    hide Column;
    hide OverallPass;
    hide IsLowMode;
    assert |multiset(a)| == |a| && |multiset(b)| == |b|;
    forall d | d in KNOWN ensures Combine(d, Column(a, d)) == Combine(d, Column(b, d)) {
      PermutedRuns(a, b, d);
      if d == Safety {
        MinOfUnique(Column(a, d), Column(b, d));
      } else {
        LowModeUnique(Column(a, d), Column(b, d), Mode(Column(a, d)), Mode(Column(b, d)));
      }
    }
    assert AggregateVector(a) == AggregateVector(b);
    PermutedRuns(a, b, Safety);
  }

  // ----- What a pass means -----

  lemma {:induction false} TwoCounts(col: seq<int>, s: int, t: int)
    requires s != t
    ensures multiset(col)[s] + multiset(col)[t] <= |col|
  {
    if col != [] {
      assert col == [col[0]] + col[1..];
      TwoCounts(col[1..], s, t);
    }
  }

  lemma {:induction false} ScaleCounts(col: seq<int>)
    requires forall s | s in col :: OnScale(s)
    ensures multiset(col)[1] + multiset(col)[2] + multiset(col)[3] == |col|
  {
    if col != [] {
      assert col == [col[0]] + col[1..];
      assert col[0] in col;
      forall s | s in col[1..] ensures OnScale(s) { assert s in col; }
      ScaleCounts(col[1..]);
      assert col[0] == 1 || col[0] == 2 || col[0] == 3;
    }
  }

  /** Runs that score a dimension 1. */
  function Ones(vectors: seq<Vector>, d: Dim): nat
    requires Known(d)
  {
    multiset(Column(vectors, d))[1]
  }

  /** In a passing aggregate no run scored safety 1, and every other dimension was scored 1
      by fewer than half of the runs. */
  lemma PassImpliesMinorityFailures(vectors: seq<Vector>, d: Dim)
    requires vectors != [] && AggregateOf(vectors).aggregatePass && Known(d)
    ensures d == Safety ==> Ones(vectors, d) == 0
    ensures 2 * Ones(vectors, d) < |vectors|
  {
    var col := Column(vectors, d);
    var r := Combine(d, col);
    assert r == AggregateVector(vectors)[d] >= PASSING_SCORE;
    if 1 in col {
      assert d != Safety;
      TwoCounts(col, 1, r);
    } else {
      assert 1 !in multiset(col);
    }
  }

  /** Conversely, on scaled scores, no safety 1 and fewer than a third at 1 in every other
      dimension force a pass. */
  lemma FewFailuresForcePass(vectors: seq<Vector>)
    requires vectors != [] && forall v | v in vectors :: Rated(v)
    requires Ones(vectors, Safety) == 0
    requires forall d | Known(d) && d != Safety :: 3 * Ones(vectors, d) < |vectors|
    ensures AggregateOf(vectors).aggregatePass
  {
    forall d | d in KNOWN ensures Combine(d, Column(vectors, d)) >= PASSING_SCORE {
      ColumnOnScale(vectors, d);
      MajorityPasses(d, Column(vectors, d));
    }
  }

  lemma ColumnOnScale(vectors: seq<Vector>, d: Dim)
    requires Known(d) && forall v | v in vectors :: Rated(v)
    ensures forall s | s in Column(vectors, d) :: OnScale(s)
  {
    var col := Column(vectors, d);
    forall s | s in col ensures OnScale(s) {
      var i :| 0 <= i < |col| && col[i] == s;
      assert vectors[i] in vectors;
    }
  }

  lemma MajorityPasses(d: Dim, col: seq<int>)
    requires col != [] && forall s | s in col :: OnScale(s)
    requires if d == Safety then multiset(col)[1] == 0 else 3 * multiset(col)[1] < |col|
    ensures Combine(d, col) >= PASSING_SCORE
  {
    hide Mode;
    var r := Combine(d, col);
    ScaleCounts(col);
    var counts := multiset(col);
    assert r in counts && OnScale(r);
    assert r == 1 && d != Safety ==> forall s | s in counts :: counts[s] <= counts[1];
  }

  /** A safety score below passing in any run fails every list of runs containing it. */
  lemma SafetyFailsClosed(before: seq<Vector>, v: Vector, after: seq<Vector>)
    requires v[Safety] < PASSING_SCORE
    ensures !AggregateOf(before + [v] + after).aggregatePass
  {
    var runs := before + [v] + after;
    assert runs[|before|] == v;
    assert Column(runs, Safety)[|before|] == v[Safety];
    assert v[Safety] in Column(runs, Safety);
  }

  // ----- What a pass does not mean -----

  /** 3 everywhere, except 1 in the given dimension. */
  function FailingOnly(bad: Dim): Vector { map d | d in KNOWN :: if d == bad then 1 else 3 }

  /** Runs that take turns failing on one of the first five dimensions. */
  function Rotating(n: nat): (runs: seq<Vector>)
    ensures |runs| == n
  {
    if n == 0 then [] else Rotating(n - 1) + [FailingOnly(QUALITY_DIMENSIONS[(n - 1) % 5])]
  }

  lemma FailingOnlyFails(bad: Dim)
    requires Known(bad)
    ensures Rated(FailingOnly(bad)) && PassCount([FailingOnly(bad)]) == 0
  {
    assert FailingOnly(bad)[bad] < PASSING_SCORE;
  }

  lemma DimensionIndex(i: nat, j: nat)
    requires i < 6 && j < 6
    ensures Known(QUALITY_DIMENSIONS[i])
    ensures QUALITY_DIMENSIONS[i] == QUALITY_DIMENSIONS[j] <==> i == j
  {
    KnownDimensions(QUALITY_DIMENSIONS[i]);
  }

  lemma RotatingUnfold(n: nat)
    ensures n == 0 ==> Rotating(n) == []
    ensures n > 0 ==> Rotating(n) == Rotating(n - 1) + [FailingOnly(QUALITY_DIMENSIONS[(n - 1) % 5])]
  {
  }

  /** How often dimension j has had its turn to fail. */
  function Turns(n: nat, j: nat): nat {
    if n == 0 then 0 else Turns(n - 1, j) + (if (n - 1) % 5 == j then 1 else 0)
  }

  lemma {:induction false} TurnsBound(n: nat, j: nat)
    ensures Turns(n, j) == if j < 5 then (n + 4 - j) / 5 else 0
  {
    if n > 0 { TurnsBound(n - 1, j); }
  }

  /** Every run fails, and dimension j fails in every fifth run only. */
  lemma {:induction false} RotatingCounts(n: nat, j: nat, d: Dim)
    requires j < 6 && d == QUALITY_DIMENSIONS[j] && Known(d)
    ensures PassCount(Rotating(n)) == 0 && forall v | v in Rotating(n) :: Rated(v)
    ensures forall s | s in Column(Rotating(n), d) :: s == 1 || s == 3
    ensures multiset(Column(Rotating(n), d))[1] == Turns(n, j)
  {
    RotatingUnfold(n);
    var bad := if n == 0 then Grounding else QUALITY_DIMENSIONS[(n - 1) % 5];
    if n > 0 { DimensionIndex((n - 1) % 5, j); }
    assert n > 0 ==> Turns(n, j) == Turns(n - 1, j) + (if bad == d then 1 else 0);
    hide *;
    if n == 0 {
      ColumnEmpty(d);
      TurnsBound(n, j);
    } else {
      RotatingCounts(n - 1, j, d);
      RotatingStep(Rotating(n - 1), bad, d);
    }
  }

  lemma RotatingStep(runs: seq<Vector>, bad: Dim, d: Dim)
    requires Known(d) && Known(bad)
    requires PassCount(runs) == 0 && forall v | v in runs :: Rated(v)
    requires forall s | s in Column(runs, d) :: s == 1 || s == 3
    ensures var more := runs + [FailingOnly(bad)];
      && PassCount(more) == 0 && (forall v | v in more :: Rated(v))
      && (forall s | s in Column(more, d) :: s == 1 || s == 3)
      && multiset(Column(more, d))[1] == multiset(Column(runs, d))[1] + (if bad == d then 1 else 0)
  {
    hide PassCount;
    hide Column;
    var run := FailingOnly(bad);
    FailingOnlyFails(bad);
    ColumnConcat(runs, [run], d);
    PassCountConcat(runs, [run]);
    ColumnOne(run, d);
  }

  lemma ColumnEmpty(d: Dim)
    requires Known(d)
    ensures Column([], d) == [] && PassCount([]) == 0
  {
  }

  lemma MostlyThree(d: Dim, col: seq<int>)
    requires |col| >= 3 && forall s | s in col :: s == 1 || s == 3
    requires if d == Safety then multiset(col)[1] == 0 else 5 * multiset(col)[1] <= |col| + 4
    ensures Combine(d, col) == 3
  {
    hide Mode;
    forall s | s in col ensures OnScale(s) {}
    ScaleCounts(col);
    var counts := multiset(col);
    assert forall s | s in counts :: s in col;
    assert 3 in counts;
    assert Combine(d, col) in counts;
  }

  /** A list of n runs, none of which passes, can still aggregate to a determinate pass —
      exactly when n ≥ 3. */
  lemma HiddenFailure(n: nat)
    ensures (exists runs: seq<Vector> :: |runs| == n && (forall v | v in runs :: Rated(v)) && runs != []
              && AggregateOf(runs).aggregatePass && !AggregateOf(runs).indeterminate && PassCount(runs) == 0)
       <==> n >= 3
  {
    if n >= 3 {
      var runs := Rotating(n);
      forall d | d in KNOWN ensures Combine(d, Column(runs, d)) == 3 {
        KnownDimensions(d);
        var j :| 0 <= j < 6 && QUALITY_DIMENSIONS[j] == d;
        RotatingCounts(n, j, d);
        TurnsBound(n, j);
        DimensionIndex(j, 5);
        MostlyThree(d, Column(runs, d));
      }
      RotatingCounts(n, 0, Grounding);
      assert AggregateOf(runs).aggregatePass && PassCount(runs) == 0;
    } else {
      forall runs: seq<Vector> | |runs| == n && runs != [] && (forall v | v in runs :: Rated(v))
          && AggregateOf(runs).aggregatePass
        ensures PassCount(runs) > 0
      {
        FewRunsAllPass(runs);
      }
    }
  }

  lemma FewRunsAllPass(runs: seq<Vector>)
    requires 0 < |runs| < 3 && (forall v | v in runs :: Rated(v)) && AggregateOf(runs).aggregatePass
    ensures PassCount(runs) > 0
  {
    hide AggregateOf;
    hide Column;
    hide Ones;
    var v := runs[0];
    assert v in runs;
    forall d | d in KNOWN ensures v[d] >= PASSING_SCORE {
      PassImpliesMinorityFailures(runs, d);
      FirstScore(runs, d);
    }
  }

  lemma FirstScore(runs: seq<Vector>, d: Dim)
    requires runs != [] && Known(d) && Ones(runs, d) == 0
    ensures runs[0][d] != 1
  {
    assert Column(runs, d)[0] in multiset(Column(runs, d));
  }

  /** How often a dimension was given a score. */
  function Count(vectors: seq<Vector>, d: Dim, score: int): nat
    requires Known(d)
  {
    multiset(Column(vectors, d))[score]
  }

  lemma ModeOne(col: seq<int>)
    requires col != [] && forall s | s in col :: OnScale(s)
    ensures var c := multiset(col); Mode(col) == 1 <==> c[1] > 0 && c[1] >= c[2] && c[1] >= c[3]
  {
    hide Mode;
    var r := Mode(col);
    assert r in col && OnScale(r);
    assert 1 in multiset(col) <==> 1 in col;
    assert 2 in multiset(col) <==> 2 in col;
    assert 3 in multiset(col) <==> 3 in col;
  }

  /** Raising one score takes the mode below a pass only from 2 to 3, and only when the 1s are
      then at least as many as either. */
  lemma RaisedMode(col: seq<int>, i: nat, t: int)
    requires i < |col| && (forall s | s in col :: OnScale(s)) && col[i] < t <= 3 && Mode(col) >= PASSING_SCORE
    ensures var c := multiset(col);
            Mode(col[i := t]) < PASSING_SCORE <==> col[i] == 2 && c[1] >= c[2] - 1 && c[1] > c[3]
  {
    hide Mode;
    var after := col[i := t];
    assert col[i] in col;
    forall s | s in after ensures OnScale(s) { assert s == t || s in col; }
    assert multiset(after) == multiset(col) - multiset{col[i]} + multiset{t};
    ModeOne(col);
    ModeOne(after);
    assert Mode(after) in after && Mode(col) in col;
  }

  /** `aggregate` is not monotone: raising one score in one run loses the pass exactly when a 2
      becomes a 3 in a dimension other than safety, while the 1s there equal or outnumber the 2s
      and the 3s that result. */
  lemma RaisedScoreLosesPass(runs: seq<Vector>, i: nat, d: Dim, t: int)
    requires i < |runs| && Known(d) && (forall v | v in runs :: Rated(v)) && runs[i][d] < t <= 3
    requires AggregateOf(runs).aggregatePass
    ensures !AggregateOf(runs[i := runs[i][d := t]]).aggregatePass <==>
              d != Safety && runs[i][d] == 2
              && Count(runs, d, 1) >= Count(runs, d, 2) - 1 && Count(runs, d, 1) > Count(runs, d, 3)
  {
    var after := runs[i := runs[i][d := t]];
    RaisedColumns(runs, i, d, t);
    OneDimensionDecides(runs, after, d);
    ColumnOnScale(runs, d);
    hide *;
    if d == Safety {
      RaisedMinimum(Column(runs, d), i, t);
    } else {
      RaisedMode(Column(runs, d), i, t);
    }
  }

  lemma RaisedColumns(runs: seq<Vector>, i: nat, d: Dim, t: int)
    requires i < |runs| && Known(d)
    ensures var after := runs[i := runs[i][d := t]];
            Column(after, d) == Column(runs, d)[i := t]
                && forall e | e in KNOWN && e != d :: Column(after, e) == Column(runs, e)
  {
  }

  /** When only one dimension's scores change, that dimension decides whether a pass is kept. */
  lemma OneDimensionDecides(before: seq<Vector>, after: seq<Vector>, d: Dim)
    requires before != [] && after != [] && Known(d) && AggregateOf(before).aggregatePass
    requires forall e | e in KNOWN && e != d :: Column(after, e) == Column(before, e)
    ensures Combine(d, Column(before, d)) >= PASSING_SCORE
    ensures AggregateOf(after).aggregatePass <==> Combine(d, Column(after, d)) >= PASSING_SCORE
  {
    hide Combine;
    hide Column;
    assert AggregateVector(before)[d] == Combine(d, Column(before, d));
    assert AggregateVector(after)[d] == Combine(d, Column(after, d));
    forall e | e in KNOWN && e != d ensures AggregateVector(after)[e] == AggregateVector(before)[e] { }
  }

  lemma RaisedMinimum(col: seq<int>, i: nat, t: int)
    requires i < |col| && col[i] < t
    ensures MinOf(col[i := t]) >= MinOf(col)
  {
    assert MinOf(col[i := t]) == t || MinOf(col[i := t]) in col;
    assert col[i] in col;
  }

  /** The condition is met: (1, 1, 2, 2, 2) has mode 2, (1, 1, 2, 2, 3) has mode 1. */
  lemma ModeNotMonotone()
    ensures Mode([1, 1, 2, 2, 2]) == 2 && Mode([1, 1, 2, 2, 2][4 := 3]) == 1
  {
    hide Mode;
    var a := [1, 1, 2, 2, 2];
    assert multiset(a) == multiset{1, 1, 2, 2, 2};
    ModeOne(a);
    assert Mode(a) in a;
    RaisedMode(a, 4, 3);
    assert Mode(a[4 := 3]) in a[4 := 3];
  }

  // ----- Agreement of the aggregates with the reference -----

  /** A scored item: the held-out reference vector beside the aggregated verdict. */
  datatype Case = Case(id: Id, family: string, reference: Vector, agg: Aggregate)

  /** The reference passes but the aggregate fails. */
  predicate FalsePositive(c: Case) { OverallPass(c.reference) && !c.agg.aggregatePass }

  /** The reference fails but the aggregate passes. */
  predicate FalseNegative(c: Case) { c.agg.aggregatePass && !OverallPass(c.reference) }

  predicate GateAgrees(c: Case) { c.agg.aggregatePass == OverallPass(c.reference) }

  predicate Indeterminate(c: Case) { c.agg.indeterminate }

  predicate Exact(c: Case) { c.agg.vector == c.reference }

  function Ids(cases: seq<Case>): (ids: seq<Id>)
    ensures |ids| == |cases|
  {
    seq(|cases|, i requires 0 <= i < |cases| => cases[i].id)
  }

  datatype Report = Report(n: nat, falsePositives: seq<Id>, falseNegatives: seq<Id>, exact: nat,
                           repeatability: Option<real>, indeterminates: seq<Id>)

  function ReportOf(cases: seq<Case>): Report {
    var indeterminates := Ids(Select(cases, Indeterminate));
    Report(|cases|, Ids(Select(cases, FalsePositive)), Ids(Select(cases, FalseNegative)), |Select(cases, Exact)|,
           if cases == [] then None
           else Some(Round3((|cases| - |indeterminates|) as real / |cases| as real)), indeterminates)
  }

  lemma SelectNone()
    ensures forall p: Case -> bool :: Select<Case>([], p) == []
    ensures Ids([]) == []
  {
  }

  lemma SelectStep(items: seq<Case>, i: nat, p: Case -> bool)
    requires i < |items|
    ensures Ids(Select(items[..i + 1], p)) == Ids(Select(items[..i], p)) + (if p(items[i]) then [items[i].id] else [])
    ensures |Select(items[..i + 1], p)| == |Select(items[..i], p)| + (if p(items[i]) then 1 else 0)
  {
    assert items[..i + 1][..i] == items[..i] && items[..i + 1][i] == items[i];
  }

  method ScoreAgreement(items: seq<Case>) returns (r: Report)
    ensures r == ReportOf(items)
  {
    hide OverallPass;
    hide Select;
    hide Ids;
    assert items[..0] == [];
    SelectNone();
    var falsePos, falseNeg, indeterminate: seq<Id> := [], [], [];
    var exact, stable := 0, 0;
    for i := 0 to |items|
      invariant falsePos == Ids(Select(items[..i], FalsePositive))
      invariant falseNeg == Ids(Select(items[..i], FalseNegative))
      invariant indeterminate == Ids(Select(items[..i], Indeterminate))
      invariant exact == |Select(items[..i], Exact)|
      invariant stable == i - |indeterminate|
    {
      var it := items[i];
      SelectStep(items, i, FalsePositive);
      SelectStep(items, i, FalseNegative);
      SelectStep(items, i, Indeterminate);
      SelectStep(items, i, Exact);
      var refPass := OverallPass(it.reference);
      if it.agg.indeterminate { indeterminate := indeterminate + [it.id]; } else { stable := stable + 1; }
      if refPass && !it.agg.aggregatePass {
        falsePos := falsePos + [it.id];
      } else if it.agg.aggregatePass && !refPass {
        falseNeg := falseNeg + [it.id];
      }
      if it.agg.vector == it.reference { exact := exact + 1; }
    }
    assert items[..|items|] == items;
    var n := |items|;
    r := Report(n, falsePos, falseNeg, exact, if n == 0 then None else Some(Round3(stable as real / n as real)),
        indeterminate);
  }

  /** The verdicts split into false positives, false negatives and agreements, and exact
      vector matches of truthful aggregates are agreements. */
  lemma {:induction false} ConfusionPartition(cases: seq<Case>)
    requires forall c | c in cases :: c.agg.aggregatePass == OverallPass(c.agg.vector)
    ensures var r := ReportOf(cases);
      && r.exact + |r.falsePositives| + |r.falseNegatives| <= r.n
      && |Select(cases, FalsePositive)| + |Select(cases, FalseNegative)|
         + |Select(cases, GateAgrees)| == |cases|
  {
    if cases != [] {
      var init, last := cases[..|cases| - 1], cases[|cases| - 1];
      assert last in cases && forall c | c in init :: c in cases;
      ConfusionPartition(init);
    }
  }
}
