/** Screening a candidate judge model against the committed baseline
    (eval/judge_model_migration.py): paired comparisons, the hard gate, adoption. */
module Migration {
  import opened Rubric
  import opened Sequencing
  import opened McNemar
  import opened NRun

  // ----- Paired reports -----

  datatype Pair = Pair(id: Id, baselineCorrect: bool, candidateCorrect: bool)

  predicate OnlyBaseline(p: Pair) { p.baselineCorrect && !p.candidateCorrect }

  predicate OnlyCandidate(p: Pair) { !p.baselineCorrect && p.candidateCorrect }

  function Where(pairs: seq<Pair>, p: Pair -> bool): seq<Id> {
    if pairs == [] then []
    else Where(pairs[..|pairs| - 1], p) + (if p(pairs[|pairs| - 1]) then [pairs[|pairs| - 1].id] else [])
  }

  datatype Comparison = Comparison(onlyBaseline: seq<Id>, onlyCandidate: seq<Id>, pValue: real, verdict: Verdict,
                                   baselineFalsePass: nat, candidateFalsePass: seq<Id>, failOpenDelta: int)

  function PairedReport(pairs: seq<Pair>, baselineFalsePass: seq<Id>, candidateFalsePass: seq<Id>): Comparison {
    var b, c := Where(pairs, OnlyBaseline), Where(pairs, OnlyCandidate);
    Comparison(b, c, PValue(|b|, |c|), VerdictOf(|b|, |c|), |baselineFalsePass|, candidateFalsePass,
               |candidateFalsePass| - |baselineFalsePass|)
  }

  function VerdictOn(pairs: seq<Pair>): Verdict { PairedReport(pairs, [], []).verdict }

  function CorrectCount(pairs: seq<Pair>, p: Pair -> bool): nat { |Where(pairs, p)| }

  lemma WhereAppend(pairs: seq<Pair>, p: Pair, f: Pair -> bool)
    ensures Where(pairs + [p], f) == Where(pairs, f) + (if f(p) then [p.id] else [])
  {
    assert (pairs + [p])[..|pairs|] == pairs;
  }

  /** One more case won by the baseline alone never clears a regression nor creates an
      improvement; one more won by the candidate alone never creates a regression nor clears
      an improvement; cases the arms share change nothing. */
  lemma VerdictFollowsEvidence(pairs: seq<Pair>, p: Pair)
    ensures OnlyBaseline(p) && VerdictOn(pairs) == Regressed ==> VerdictOn(pairs + [p]) == Regressed
    ensures OnlyBaseline(p) && VerdictOn(pairs + [p]) == Improved ==> VerdictOn(pairs) == Improved
    ensures OnlyCandidate(p) && VerdictOn(pairs + [p]) == Regressed ==> VerdictOn(pairs) == Regressed
    ensures OnlyCandidate(p) && VerdictOn(pairs) == Improved ==> VerdictOn(pairs + [p]) == Improved
    ensures p.baselineCorrect == p.candidateCorrect ==> VerdictOn(pairs + [p]) == VerdictOn(pairs)
  {
    hide VerdictOf;
    hide PValue;
    WhereAppend(pairs, p, OnlyBaseline);
    WhereAppend(pairs, p, OnlyCandidate);
    VerdictMonotone(|Where(pairs, OnlyBaseline)|, |Where(pairs, OnlyCandidate)|);
  }

  function Swapped(pairs: seq<Pair>): (out: seq<Pair>)
    ensures |out| == |pairs|
  {
    seq(|pairs|, i requires 0 <= i < |pairs| => Pair(pairs[i].id, pairs[i].candidateCorrect, pairs[i].baselineCorrect))
  }

  lemma {:induction false} SwappedWhere(pairs: seq<Pair>)
    ensures Where(Swapped(pairs), OnlyBaseline) == Where(pairs, OnlyCandidate)
    ensures Where(Swapped(pairs), OnlyCandidate) == Where(pairs, OnlyBaseline)
  {
    if pairs != [] {
      assert Swapped(pairs)[..|pairs| - 1] == Swapped(pairs[..|pairs| - 1]);
      SwappedWhere(pairs[..|pairs| - 1]);
    }
  }

  /** Exchanging the arms exchanges the verdicts. */
  lemma ArmsExchange(pairs: seq<Pair>)
    ensures VerdictOn(Swapped(pairs)) == Improved <==> VerdictOn(pairs) == Regressed
    ensures VerdictOn(Swapped(pairs)) == NoEvidence <==> VerdictOn(pairs) == NoEvidence
    ensures PairedReport(Swapped(pairs), [], []).pValue == PairedReport(pairs, [], []).pValue
  {
    hide VerdictOf;
    hide PValue;
    SwappedWhere(pairs);
    VerdictSwap(|Where(pairs, OnlyBaseline)|, |Where(pairs, OnlyCandidate)|);
    PValueRange(|Where(pairs, OnlyBaseline)|, |Where(pairs, OnlyCandidate)|);
  }

  predicate BaselineRight(p: Pair) { p.baselineCorrect }

  predicate CandidateRight(p: Pair) { p.candidateCorrect }

  /** The discordant counts differ by exactly the difference in correct answers. */
  lemma {:induction false} DiscordanceIsNetLoss(pairs: seq<Pair>)
    ensures |Where(pairs, OnlyBaseline)| - |Where(pairs, OnlyCandidate)|
         == CorrectCount(pairs, BaselineRight) - CorrectCount(pairs, CandidateRight)
  {
    if pairs != [] { DiscordanceIsNetLoss(pairs[..|pairs| - 1]); }
  }

  /** Fewer than six discordant pairs never give a verdict. */
  lemma FewPairsNoVerdict(pairs: seq<Pair>)
    requires |Where(pairs, OnlyBaseline)| + |Where(pairs, OnlyCandidate)| < 6
    ensures VerdictOn(pairs) == NoEvidence
  {
    hide VerdictOf;
    SixPairs(|Where(pairs, OnlyBaseline)| + |Where(pairs, OnlyCandidate)|);
  }

  // ----- Building the pairs -----

  /** `{case["candidate_id"]: case for case in cases}`: a later case replaces an earlier one. */
  function CasesById(cases: seq<Case>): map<Id, Case> {
    if cases == [] then map[] else CasesById(cases[..|cases| - 1])[cases[|cases| - 1].id := cases[|cases| - 1]]
  }

  lemma {:induction false} CasesByIdMembers(cases: seq<Case>, id: Id)
    requires id in CasesById(cases)
    ensures CasesById(cases)[id] in cases && CasesById(cases)[id].id == id
  {
    if cases[|cases| - 1].id != id { CasesByIdMembers(cases[..|cases| - 1], id); }
  }

  function ReferenceScore(c: Case, d: Dim): int
    requires Known(d)
  {
    c.reference[d]
  }

  function AggregateScore(c: Case, d: Dim): int
    requires Known(d)
  {
    c.agg.vector[d]
  }

  predicate DimensionFalsePass(c: Case, scored: Case, d: Dim)
    requires Known(d)
  {
    ReferenceScore(c, d) < PASSING_SCORE && AggregateScore(scored, d) >= PASSING_SCORE
  }

  function DimensionPair(base: Case, cand: Case, d: Dim): Pair
    requires Known(d)
  {
    Pair(cand.id, AggregateScore(base, d) == ReferenceScore(cand, d),
        AggregateScore(cand, d) == ReferenceScore(cand, d))
  }

  /** The pair, and whether either arm passes what the reference fails, for one case. */
  datatype Row = Row(pair: Pair, baselineFalsePass: bool, candidateFalsePass: bool)

  function DimensionRow(base: Case, cand: Case, d: Dim): Row
    requires Known(d)
  {
    Row(DimensionPair(base, cand, d), DimensionFalsePass(cand, base, d), DimensionFalsePass(cand, cand, d))
  }

  function OverallRow(base: Case, cand: Case): Row {
    var refPass := OverallPass(cand.reference);
    Row(Pair(cand.id, base.agg.aggregatePass == refPass, cand.agg.aggregatePass == refPass),
        !refPass && base.agg.aggregatePass, !refPass && cand.agg.aggregatePass)
  }

  function Pairs(rows: seq<Row>): seq<Pair> { seq(|rows|, i requires 0 <= i < |rows| => rows[i].pair) }

  function BaselineFalsePasses(rows: seq<Row>): seq<Id> {
    if rows == [] then []
    else
      var last := rows[|rows| - 1];
      BaselineFalsePasses(rows[..|rows| - 1]) + (if last.baselineFalsePass then [last.pair.id] else [])
  }

  function CandidateFalsePasses(rows: seq<Row>): seq<Id> {
    if rows == [] then []
    else
      var last := rows[|rows| - 1];
      CandidateFalsePasses(rows[..|rows| - 1]) + (if last.candidateFalsePass then [last.pair.id] else [])
  }

  function ReportRows(rows: seq<Row>): Comparison {
    PairedReport(Pairs(rows), BaselineFalsePasses(rows), CandidateFalsePasses(rows))
  }

  /** The dimension compared, or the overall verdict when none is given. */
  function RowFor(base: Case, cand: Case, d: Option<Dim>): Row
    requires d.Some? ==> Known(d.value)
  {
    if d.Some? then DimensionRow(base, cand, d.value) else OverallRow(base, cand)
  }

  function Rows(ids: seq<Id>, base: map<Id, Case>, cand: map<Id, Case>, d: Option<Dim>): (rows: seq<Row>)
    requires forall k | 0 <= k < |ids| :: ids[k] in base && ids[k] in cand
    requires d.Some? ==> Known(d.value)
    ensures |rows| == |ids|
  {
    seq(|ids|, i requires 0 <= i < |ids| => RowFor(base[ids[i]], cand[ids[i]], d))
  }

  ghost function ComparisonOf(base: map<Id, Case>, cand: map<Id, Case>, d: Option<Dim>): Comparison
    requires base.Keys == cand.Keys && (d.Some? ==> Known(d.value))
  {
    var ids := Ascending(base.Keys);
    assert forall k | 0 <= k < |ids| :: ids[k] in ids;
    ReportRows(Rows(ids, base, cand, d))
  }

  lemma RowsStep(rows: seq<Row>, r: Row)
    ensures Pairs(rows + [r]) == Pairs(rows) + [r.pair]
    ensures BaselineFalsePasses(rows + [r])
                == BaselineFalsePasses(rows) + (if r.baselineFalsePass then [r.pair.id] else [])
    ensures CandidateFalsePasses(rows + [r])
                == CandidateFalsePasses(rows) + (if r.candidateFalsePass then [r.pair.id] else [])
  {
    assert (rows + [r])[..|rows|] == rows;
  }

  method PairedDimensionReport(base: map<Id, Case>, cand: map<Id, Case>, d: Dim) returns (r: Comparison)
    requires base.Keys == cand.Keys && Known(d)
    requires forall id | id in cand :: cand[id].id == id
    ensures r == ComparisonOf(base, cand, Some(d))
  {
    hide BaselineFalsePasses;
    hide CandidateFalsePasses;
    hide Pairs;
    hide PairedReport;
    hide Ascending;
    hide HasAll;
    hide ReferenceScore;
    hide AggregateScore;
    var ids := Ascending(base.Keys);
    assert forall k | 0 <= k < |ids| :: ids[k] in ids;
    ghost var rows := Rows(ids, base, cand, Some(d));
    var pairs: seq<Pair> := [];
    var baselineFalsePass, candidateFalsePass: seq<Id> := [], [];
    NoRows();
    for i := 0 to |ids|
      invariant pairs == Pairs(rows[..i])
      invariant baselineFalsePass == BaselineFalsePasses(rows[..i])
      invariant candidateFalsePass == CandidateFalsePasses(rows[..i])
    {
      var id := ids[i];
      assert id in ids;
      assert rows[..i + 1] == rows[..i] + [rows[i]];
      RowsStep(rows[..i], rows[i]);
      var reference := ReferenceScore(cand[id], d);
      var baselineScore, candidateScore := AggregateScore(base[id], d), AggregateScore(cand[id], d);
      pairs := pairs + [Pair(id, baselineScore == reference, candidateScore == reference)];
      if reference < PASSING_SCORE && baselineScore >= PASSING_SCORE { baselineFalsePass := baselineFalsePass + [id]; }
      if reference < PASSING_SCORE && candidateScore >= PASSING_SCORE {
        candidateFalsePass := candidateFalsePass + [id];
      }
    }
    assert rows[..|ids|] == rows;
    r := PairedReport(pairs, baselineFalsePass, candidateFalsePass);
  }

  lemma NoRows()
    ensures Pairs([]) == [] && BaselineFalsePasses([]) == [] && CandidateFalsePasses([]) == []
    ensures forall rows: seq<Row> :: rows[..0] == []
  {
  }

  method PairedOverallReport(base: map<Id, Case>, cand: map<Id, Case>) returns (r: Comparison)
    requires base.Keys == cand.Keys
    requires forall id | id in cand :: cand[id].id == id
    ensures r == ComparisonOf(base, cand, None)
  {
    hide BaselineFalsePasses;
    hide CandidateFalsePasses;
    hide Pairs;
    hide OverallPass;
    hide PairedReport;
    hide Ascending;
    hide HasAll;
    var ids := Ascending(base.Keys);
    assert forall k | 0 <= k < |ids| :: ids[k] in ids;
    ghost var rows := Rows(ids, base, cand, None);
    var pairs: seq<Pair> := [];
    var baselineFalsePass, candidateFalsePass: seq<Id> := [], [];
    NoRows();
    for i := 0 to |ids|
      invariant pairs == Pairs(rows[..i])
      invariant baselineFalsePass == BaselineFalsePasses(rows[..i])
      invariant candidateFalsePass == CandidateFalsePasses(rows[..i])
    {
      var id := ids[i];
      assert id in ids;
      assert rows[..i + 1] == rows[..i] + [rows[i]];
      RowsStep(rows[..i], rows[i]);
      var refPass := OverallPass(cand[id].reference);
      var baselinePass, candidatePass := base[id].agg.aggregatePass, cand[id].agg.aggregatePass;
      pairs := pairs + [Pair(id, baselinePass == refPass, candidatePass == refPass)];
      if !refPass && baselinePass { baselineFalsePass := baselineFalsePass + [id]; }
      if !refPass && candidatePass { candidateFalsePass := candidateFalsePass + [id]; }
    }
    assert rows[..|ids|] == rows;
    r := PairedReport(pairs, baselineFalsePass, candidateFalsePass);
  }
}
