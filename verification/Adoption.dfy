/** The candidate's hard gate and the adoption decision (eval/judge_model_migration.py), and
    their agreement with the separately written validation gate. */
module Adoption {
  import opened Rubric
  import opened Rounding
  import opened Sequencing
  import opened McNemar
  import opened NRun
  import opened Agreement
  import opened Migration
  import Validation
  import ValidationReport

  const GATE_KAPPA: real := Validation.GATE_KAPPA

  function ReferenceCol(cases: seq<Case>, d: Dim): (col: seq<int>)
    requires Known(d)
    ensures |col| == |cases|
  {
    seq(|cases|, i requires 0 <= i < |cases| => ReferenceScore(cases[i], d))
  }

  function AggregateCol(cases: seq<Case>, d: Dim): (col: seq<int>)
    requires Known(d)
    ensures |col| == |cases|
  {
    seq(|cases|, i requires 0 <= i < |cases| => AggregateScore(cases[i], d))
  }

  predicate RatedCase(c: Case) { Rated(c.reference) && Rated(c.agg.vector) }

  /** Cases whose kappas can be computed in every dimension. */
  predicate Gradable(cases: seq<Case>) { cases != [] && forall i | 0 <= i < |cases| :: RatedCase(cases[i]) }

  lemma ScorableColumn(cases: seq<Case>, d: Dim)
    requires Known(d)
    ensures Scorable(ReferenceCol(cases, d), AggregateCol(cases, d), ORDINAL_SCORES) <==>
            cases != []
                && forall i | 0 <= i < |cases| ::
                    OnScale(ReferenceScore(cases[i], d)) && OnScale(AggregateScore(cases[i], d))
  {
    forall s ensures s in ORDINAL_SCORES <==> OnScale(s) { ScaleMembers(s); }
    var ref, agg := ReferenceCol(cases, d), AggregateCol(cases, d);
    hide ReferenceScore;
    hide AggregateScore;
    hide OnScale;
    hide ORDINAL_SCORES;
    assert forall i | 0 <= i < |cases| ::
               ref[i] == ReferenceScore(cases[i], d) && agg[i] == AggregateScore(cases[i], d);
    hide ReferenceCol;
    hide AggregateCol;
    var all := ref + agg;
    forall s | s in all ensures s in ref || s in agg { }
    forall i | 0 <= i < |cases| ensures ref[i] in all && agg[i] in all {
      assert all[i] == ref[i] && all[|cases| + i] == agg[i];
    }
  }

  lemma ScaleMembers(s: int)
    ensures s in ORDINAL_SCORES <==> OnScale(s)
  {
    if OnScale(s) { assert ORDINAL_SCORES[s - 1] == s; }
  }


  ghost predicate AllScorable(cases: seq<Case>) {
    forall d | d in KNOWN :: Scorable(ReferenceCol(cases, d), AggregateCol(cases, d), ORDINAL_SCORES)
  }

  lemma GradableIsScorable(cases: seq<Case>)
    ensures Gradable(cases) <==> AllScorable(cases)
  {
    hide Scorable;
    hide ReferenceCol;
    hide AggregateCol;
    forall d | d in KNOWN
      ensures Scorable(ReferenceCol(cases, d), AggregateCol(cases, d), ORDINAL_SCORES) <==>
            cases != []
                && forall i | 0 <= i < |cases| ::
                    OnScale(ReferenceScore(cases[i], d)) && OnScale(AggregateScore(cases[i], d))
    {
      ScorableColumn(cases, d);
    }
    if AllScorable(cases) {
      assert Safety in KNOWN;
      forall i | 0 <= i < |cases| ensures RatedCase(cases[i]) {
        forall d | d in KNOWN ensures OnScale(cases[i].reference[d]) && OnScale(cases[i].agg.vector[d]) {
          assert OnScale(ReferenceScore(cases[i], d)) && OnScale(AggregateScore(cases[i], d));
        }
      }
    }
    if Gradable(cases) {
      forall d, i | d in KNOWN && 0 <= i < |cases|
        ensures OnScale(ReferenceScore(cases[i], d)) && OnScale(AggregateScore(cases[i], d))
      {
        assert RatedCase(cases[i]);
      }
    }
  }

  ghost function GateKappa(cases: seq<Case>, d: Dim): real
    requires Known(d) && Scorable(ReferenceCol(cases, d), AggregateCol(cases, d), ORDINAL_SCORES)
  {
    Round3(Kappa(ReferenceCol(cases, d), AggregateCol(cases, d), ORDINAL_SCORES))
  }

  datatype HardGate = HardGate(kappas: map<Dim, real>, falsePassIds: seq<Id>)

  predicate GateValidated(g: HardGate)
    requires g.kappas.Keys == KNOWN
  {
    g.falsePassIds == [] && forall d | d in KNOWN :: g.kappas[d] >= GATE_KAPPA
  }

  method HardGateReport(cases: seq<Case>) returns (r: Result<HardGate>)
    ensures !Gradable(cases) ==> r == Err(ValueError)
    ensures Gradable(cases) ==> AllScorable(cases) && r.Ok? && r.value.kappas.Keys == KNOWN
    ensures Gradable(cases) ==> forall d | d in KNOWN :: r.value.kappas[d] == GateKappa(cases, d)
    ensures Gradable(cases) ==> r.value.falsePassIds == Ids(Select(cases, FalseNegative))
  {
    GradableIsScorable(cases);
    hide Gradable;
    hide Kappa;
    hide Scorable;
    hide ReferenceCol;
    hide AggregateCol;
    hide OverallPass;
    var kappas: map<Dim, real> := map[];
    for j := 0 to |QUALITY_DIMENSIONS|
      invariant forall d :: d in kappas <==> d in QUALITY_DIMENSIONS[..j]
      invariant forall d | d in kappas ::
                    Known(d) && Scorable(ReferenceCol(cases, d), AggregateCol(cases, d), ORDINAL_SCORES)
      invariant forall d | d in kappas :: kappas[d] == GateKappa(cases, d)
    {
      var dim := QUALITY_DIMENSIONS[j];
      KnownDimensions(dim);
      assert QUALITY_DIMENSIONS[..j + 1] == QUALITY_DIMENSIONS[..j] + [dim];
      var kappa := WeightedCohenKappa(ReferenceCol(cases, dim), AggregateCol(cases, dim), ORDINAL_SCORES);
      if kappa.Err? { return Err(kappa.error); }
      kappas := kappas[dim := Round3(kappa.value)];
    }
    forall d ensures d in kappas <==> d in KNOWN { KnownDimensions(d); }
    var falsePassIds := FalsePassIds(cases);
    return Ok(HardGate(kappas, falsePassIds));
  }

  method FalsePassIds(cases: seq<Case>) returns (ids: seq<Id>)
    ensures ids == Ids(Select(cases, FalseNegative))
  {
    hide Select;
    hide Ids;
    hide OverallPass;
    ids := [];
    SelectNone();
    assert cases[..0] == [];
    for i := 0 to |cases|
      invariant ids == Ids(Select(cases[..i], FalseNegative))
    {
      SelectStep(cases, i, FalseNegative);
      if cases[i].agg.aggregatePass && !OverallPass(cases[i].reference) { ids := ids + [cases[i].id]; }
    }
    assert cases[..|cases|] == cases;
  }

  // ----- The two gates -----

  /** Aggregates that report the pass their own vector implies, as `aggregate` produces them. */
  predicate Truthful(cases: seq<Case>) {
    forall i | 0 <= i < |cases| :: cases[i].agg.aggregatePass == OverallPass(cases[i].agg.vector)
  }

  lemma AggregatesAreTruthful(c: Case, runs: seq<Vector>)
    requires runs != [] && c.agg == AggregateOf(runs)
    ensures Truthful([c])
  {
  }

  function Cells(v: Scores): map<Dim, Validation.Cell> { map d | d in v :: Validation.Num(v[d]) }

  /** The case as the validation gate reads it back from the artifact. */
  function RawOf(c: Case): Validation.RawCase { Validation.RawCase(c.id, Cells(c.reference), Cells(c.agg.vector)) }

  function Raws(cases: seq<Case>): (raws: seq<Validation.RawCase>)
    ensures |raws| == |cases|
    ensures forall i | 0 <= i < |raws| :: raws[i] == RawOf(cases[i])
  {
    seq(|cases|, i requires 0 <= i < |cases| => RawOf(cases[i]))
  }

  lemma RawIsGood(c: Case)
    requires RatedCase(c)
    ensures Validation.GoodCase(RawOf(c))
    ensures forall d | d in KNOWN ::
                Validation.Judged(RawOf(c))[d] == c.agg.vector[d] && Validation.Reference(RawOf(c))[d] == c.reference[d]
    ensures c.agg.aggregatePass == OverallPass(c.agg.vector) ==>
                (Validation.FalseNegative(RawOf(c)) <==> FalseNegative(c))
  {
  }

  lemma RawColumns(cases: seq<Case>, d: Dim)
    requires Gradable(cases) && Known(d)
    ensures Validation.AllGood(Raws(cases))
    ensures Validation.JudgeColumnOf(Raws(cases), d) == AggregateCol(cases, d)
    ensures Validation.ReferenceColumnOf(Raws(cases), d) == ReferenceCol(cases, d)
  {
    forall i | 0 <= i < |cases| ensures Validation.GoodCase(Raws(cases)[i]) {
      assert RatedCase(cases[i]);
      RawIsGood(cases[i]);
    }
    hide Validation.GoodCase;
    Validation.GoodEverywhere(Raws(cases), d);
    hide Validation.GoodAt;
  }

  lemma FalsePassesStep(init: seq<Case>, c: Case)
    requires RatedCase(c) && c.agg.aggregatePass == OverallPass(c.agg.vector)
    ensures ValidationReport.FalseNegativeIds(Raws(init + [c])) ==
            ValidationReport.FalseNegativeIds(Raws(init)) + if FalseNegative(c) then [c.id] else []
  {
    RawIsGood(c);
    hide RatedCase;
    hide FalseNegative;
    hide Validation.GoodCase;
    hide Validation.FalseNegative;
    assert Raws(init + [c]) == Raws(init) + [RawOf(c)];
    ValidationReport.FalseNegativeIdsAppend(Raws(init), RawOf(c));
    hide Raws;
  }

  lemma SelectedIdsStep(init: seq<Case>, c: Case)
    ensures Ids(Select(init + [c], FalseNegative))
                == Ids(Select(init, FalseNegative)) + if FalseNegative(c) then [c.id] else []
  {
    hide FalseNegative;
    SelectStep(init + [c], |init|, FalseNegative);
    assert (init + [c])[..|init|] == init && (init + [c])[..|init| + 1] == init + [c];
  }

  lemma {:induction false} FalsePassesAgree(cases: seq<Case>)
    requires (forall i | 0 <= i < |cases| :: RatedCase(cases[i])) && Truthful(cases)
    ensures ValidationReport.FalseNegativeIds(Raws(cases)) == Ids(Select(cases, FalseNegative))
  {
    if cases == [] {
      NothingPassed();
    } else {
      var init, last := cases[..|cases| - 1], cases[|cases| - 1];
      assert cases == init + [last] && Truthful(init);
      hide *;
      FalsePassesAgree(init);
      FalsePassesStep(init, last);
      SelectedIdsStep(init, last);
    }
  }

  lemma NothingPassed()
    ensures ValidationReport.FalseNegativeIds(Raws([])) == [] && Ids(Select<Case>([], FalseNegative)) == []
  {
    assert Raws([]) == [];
  }

  lemma HardKappaAgrees(cases: seq<Case>, d: Dim)
    requires Gradable(cases) && Known(d) && Validation.Readable(Raws(cases), d)
    requires Scorable(ReferenceCol(cases, d), AggregateCol(cases, d), ORDINAL_SCORES)
    ensures Validation.HardKappa(Raws(cases), d) == GateKappa(cases, d)
  {
    hide Kappa;
    hide Scorable;
    RawColumns(cases, d);
    KappaSymmetric(ReferenceCol(cases, d), AggregateCol(cases, d), ORDINAL_SCORES);
    Validation.ColumnsScorable(Raws(cases), d);
    hide ReferenceCol;
    hide AggregateCol;
  }

  /** On truthful aggregates the migration gate and the validation gate compute the same kappas,
      although they pass their columns in opposite order, and report the same false passes. */
  lemma GatesAgree(cases: seq<Case>, d: Dim)
    requires Gradable(cases) && Truthful(cases) && Known(d)
    ensures Validation.AllGood(Raws(cases)) && Validation.Readable(Raws(cases), d)
    ensures Scorable(ReferenceCol(cases, d), AggregateCol(cases, d), ORDINAL_SCORES)
    ensures Validation.HardKappa(Raws(cases), d) == GateKappa(cases, d)
    ensures ValidationReport.FalseNegativeIds(Raws(cases)) == Ids(Select(cases, FalseNegative))
    ensures forall kappa ::
              ValidationReport.CasesReported(Raws(cases), ValidationReport.HardKappaLow(d, kappa))
              <==> kappa == GateKappa(cases, d) && kappa < GATE_KAPPA
  {
    GradableParts(cases);
    hide *;
    GradableIsScorable(cases);
    ScorableColumns(cases, d);
    RawColumns(cases, d);
    forall kappa
      ensures ValidationReport.CasesReported(Raws(cases), ValidationReport.HardKappaLow(d, kappa))
              <==> kappa == GateKappa(cases, d) && kappa < GATE_KAPPA
    {
      ValidationReport.GoodLow(Raws(cases), d, kappa);
      HardKappaAgrees(cases, d);
    }
    ValidationReport.GoodLow(Raws(cases), d, 0.0);
    HardKappaAgrees(cases, d);
    FalsePassesAgree(cases);
  }

  lemma GradableParts(cases: seq<Case>)
    requires Gradable(cases)
    ensures cases != [] && Raws(cases) != [] && forall i | 0 <= i < |cases| :: RatedCase(cases[i])
    ensures GATE_KAPPA == Validation.GATE_KAPPA
  {
  }

  lemma ScorableColumns(cases: seq<Case>, d: Dim)
    requires AllScorable(cases) && Known(d)
    ensures Scorable(ReferenceCol(cases, d), AggregateCol(cases, d), ORDINAL_SCORES)
  {
  }

  // ----- Adoption -----

  datatype Blocker =
    | KappaBelow(dimension: Dim, kappa: real)
    | FalsePasses(ids: seq<Id>)
    | RegressedOn(dim: Option<Dim>)
    | FailOpenOn(dim: Option<Dim>, delta: int)

  /** The low kappas among the first n dimensions. */
  function LowKappas(g: HardGate, n: nat): seq<Blocker>
    requires g.kappas.Keys == KNOWN && n <= |QUALITY_DIMENSIONS|
  {
    if n == 0 then []
    else
      var d := QUALITY_DIMENSIONS[n - 1];
      KnownDimensions(d);
      LowKappas(g, n - 1) + (if g.kappas[d] < GATE_KAPPA then [KappaBelow(d, g.kappas[d])] else [])
  }

  /** The failures of the hard gate, each of which blocks adoption. */
  function GateBlockers(g: HardGate): seq<Blocker>
    requires g.kappas.Keys == KNOWN
  {
    LowKappas(g, |QUALITY_DIMENSIONS|) + (if g.falsePassIds == [] then [] else [FalsePasses(g.falsePassIds)])
  }

  lemma {:induction false} LowKappasNone(g: HardGate, n: nat)
    requires g.kappas.Keys == KNOWN && n <= |QUALITY_DIMENSIONS|
    ensures LowKappas(g, n) == [] <==>
              forall d | d in QUALITY_DIMENSIONS[..n] && d in KNOWN :: g.kappas[d] >= GATE_KAPPA
  {
    hide KNOWN;
    if n > 0 {
      var d := QUALITY_DIMENSIONS[n - 1];
      LowKappasNone(g, n - 1);
      KnownDimensions(d);
      assert QUALITY_DIMENSIONS[..n] == QUALITY_DIMENSIONS[..n - 1] + [d];
      hide QUALITY_DIMENSIONS;
    }
  }

  lemma GateBlockersNone(g: HardGate)
    requires g.kappas.Keys == KNOWN
    ensures GateBlockers(g) == [] <==> GateValidated(g)
  {
    LowKappasNone(g, |QUALITY_DIMENSIONS|);
    assert QUALITY_DIMENSIONS[..|QUALITY_DIMENSIONS|] == QUALITY_DIMENSIONS;
    forall d ensures d in QUALITY_DIMENSIONS <==> d in KNOWN { KnownDimensions(d); }
  }

  /** Blockers contributed by one comparison; no dimension stands for the overall verdict. */
  function BlockersOf(name: Option<Dim>, c: Comparison): seq<Blocker> {
    (if c.verdict == Regressed then [RegressedOn(name)] else [])
    + (if c.failOpenDelta > 0 then [FailOpenOn(name, c.failOpenDelta)] else [])
  }

  /** Blockers from the comparisons on the first n dimensions. */
  ghost function DimensionBlockers(base: map<Id, Case>, cand: map<Id, Case>, n: nat): seq<Blocker>
    requires base.Keys == cand.Keys && n <= |QUALITY_DIMENSIONS|
  {
    if n == 0 then []
    else
      var d := QUALITY_DIMENSIONS[n - 1];
      KnownDimensions(d);
      DimensionBlockers(base, cand, n - 1) + BlockersOf(Some(d), ComparisonOf(base, cand, Some(d)))
  }

  /** Everything that blocks the adoption, in the order it is reported. */
  ghost function AllBlockers(base: map<Id, Case>, cand: map<Id, Case>, g: HardGate): seq<Blocker>
    requires base.Keys == cand.Keys && g.kappas.Keys == KNOWN
  {
    GateBlockers(g) + DimensionBlockers(base, cand, |QUALITY_DIMENSIONS|)
    + BlockersOf(None, ComparisonOf(base, cand, None))
  }

  predicate Unblocked(c: Comparison) { c.verdict != Regressed && c.failOpenDelta <= 0 }

  datatype MigrationReport = MigrationReport(gate: HardGate, blockers: seq<Blocker>)

  ghost predicate GatePasses(cases: seq<Case>) {
    && AllScorable(cases)
    && (forall d | d in KNOWN :: GateKappa(cases, d) >= GATE_KAPPA)
    && Select(cases, FalseNegative) == []
  }

  ghost predicate ComparesWell(baseline: seq<Case>, candidate: seq<Case>)
    requires CasesById(baseline).Keys == CasesById(candidate).Keys
  {
    var base, cand := CasesById(baseline), CasesById(candidate);
    && (forall d | d in KNOWN :: Unblocked(ComparisonOf(base, cand, Some(d))))
    && Unblocked(ComparisonOf(base, cand, None))
  }

  /** The report holds every blocker and no other; there is none exactly when the candidate's hard
      gate passes and no comparison regressed or opened new false passes. */
  method BuildMigrationReport(baseline: seq<Case>, candidate: seq<Case>) returns (r: Result<MigrationReport>)
    ensures r.Err? <==> CasesById(baseline).Keys != CasesById(candidate).Keys || !Gradable(candidate)
    ensures r.Err? ==> r.error == ValueError
    ensures r.Ok? ==> AllScorable(candidate) && r.value.gate.kappas == GateKappas(candidate)
                      && r.value.gate.falsePassIds == Ids(Select(candidate, FalseNegative))
    ensures r.Ok? ==> r.value.blockers == AllBlockers(CasesById(baseline), CasesById(candidate), r.value.gate)
    ensures r.Ok? ==> (r.value.blockers == [] <==> GatePasses(candidate) && ComparesWell(baseline, candidate))
  {
    hide ComparisonOf;
    hide GateKappa;
    hide Select;
    hide Gradable;
    hide Unblocked;
    hide AllScorable;
    hide BlockersOf;
    hide GateBlockers;
    var base, cand := CasesById(baseline), CasesById(candidate);
    if base.Keys != cand.Keys { return Err(ValueError); }
    forall id | id in cand ensures cand[id].id == id { CasesByIdMembers(candidate, id); }
    hide CasesById;
    var blockers := [];
    for j := 0 to |QUALITY_DIMENSIONS|
      invariant blockers == DimensionBlockers(base, cand, j)
    {
      var dim := QUALITY_DIMENSIONS[j];
      KnownDimensions(dim);
      var comparison := PairedDimensionReport(base, cand, dim);
      blockers := blockers + BlockersOf(Some(dim), comparison);
    }
    var overall := PairedOverallReport(base, cand);
    blockers := blockers + BlockersOf(None, overall);
    var gate := HardGateReport(candidate);
    if gate.Err? { return Err(ValueError); }
    blockers := GateBlockers(gate.value) + blockers;
    NoBlockers(baseline, candidate, gate.value);
    return Ok(MigrationReport(gate.value, blockers));
  }

  ghost function GateKappas(cases: seq<Case>): map<Dim, real>
    requires AllScorable(cases)
  {
    map d | d in KNOWN :: GateKappa(cases, d)
  }

  lemma {:induction false} DimensionBlockersNone(base: map<Id, Case>, cand: map<Id, Case>, n: nat)
    requires base.Keys == cand.Keys && n <= |QUALITY_DIMENSIONS|
    ensures DimensionBlockers(base, cand, n) == [] <==>
              forall d | d in QUALITY_DIMENSIONS[..n] && d in KNOWN :: Unblocked(ComparisonOf(base, cand, Some(d)))
  {
    hide ComparisonOf;
    hide Unblocked;
    if n > 0 {
      var d := QUALITY_DIMENSIONS[n - 1];
      DimensionBlockersNone(base, cand, n - 1);
      KnownDimensions(d);
      BlockersUnblocked(Some(d), ComparisonOf(base, cand, Some(d)));
      assert QUALITY_DIMENSIONS[..n] == QUALITY_DIMENSIONS[..n - 1] + [d];
    }
  }

  lemma NoBlockers(baseline: seq<Case>, candidate: seq<Case>, g: HardGate)
    requires CasesById(baseline).Keys == CasesById(candidate).Keys && AllScorable(candidate)
    requires g.kappas.Keys == KNOWN && forall d | d in KNOWN :: g.kappas[d] == GateKappa(candidate, d)
    requires g.falsePassIds == Ids(Select(candidate, FalseNegative))
    ensures AllBlockers(CasesById(baseline), CasesById(candidate), g) == [] <==>
                GatePasses(candidate) && ComparesWell(baseline, candidate)
  {
    var base, cand := CasesById(baseline), CasesById(candidate);
    hide ComparisonOf;
    hide GateKappa;
    hide Select;
    hide Unblocked;
    hide AllScorable;
    hide BlockersOf;
    hide GateBlockers;
    hide CasesById;
    GateBlockersNone(g);
    DimensionBlockersNone(base, cand, |QUALITY_DIMENSIONS|);
    assert QUALITY_DIMENSIONS[..|QUALITY_DIMENSIONS|] == QUALITY_DIMENSIONS;
    forall d ensures d in QUALITY_DIMENSIONS <==> d in KNOWN { KnownDimensions(d); }
    BlockersUnblocked(None, ComparisonOf(base, cand, None));
  }

  lemma BlockersUnblocked(name: Option<Dim>, c: Comparison)
    ensures BlockersOf(name, c) == [] <==> Unblocked(c)
  {
  }

  lemma {:induction false} SelectsNone(cases: seq<Case>, p: Case -> bool, c: Case)
    requires Select(cases, p) == [] && c in cases
    ensures !p(c)
  {
    var init, last := cases[..|cases| - 1], cases[|cases| - 1];
    assert cases == init + [last];
    if c in init { SelectsNone(init, p, c); }
  }

  lemma {:induction false} NoCandidateFalsePass(rows: seq<Row>)
    requires forall i | 0 <= i < |rows| :: !rows[i].candidateFalsePass
    ensures CandidateFalsePasses(rows) == []
  {
    if rows != [] { NoCandidateFalsePass(rows[..|rows| - 1]); }
  }

  /** The blocker on new overall false passes is implied by the hard gate: a candidate whose
      gate passes has no overall false pass to count. */
  lemma OverallFailOpenRedundant(baseline: seq<Case>, candidate: seq<Case>)
    requires CasesById(baseline).Keys == CasesById(candidate).Keys && GatePasses(candidate)
    ensures ComparisonOf(CasesById(baseline), CasesById(candidate), None).candidateFalsePass == []
    ensures ComparisonOf(CasesById(baseline), CasesById(candidate), None).failOpenDelta <= 0
  {
    var base, cand := CasesById(baseline), CasesById(candidate);
    var ids := Ascending(base.Keys);
    assert forall k | 0 <= k < |ids| :: ids[k] in ids;
    var rows := Rows(ids, base, cand, None);
    hide GateKappa;
    hide AllScorable;
    hide Ascending;
    hide PValue;
    hide VerdictOf;
    hide CasesById;
    hide ReportRows;
    forall i | 0 <= i < |rows| ensures !rows[i].candidateFalsePass {
      NeverFalsePass(base[ids[i]], candidate, ids[i]);
    }
    NoFalsePassReport(rows);
  }

  lemma NeverFalsePass(base: Case, candidate: seq<Case>, id: Id)
    requires id in CasesById(candidate) && Select(candidate, FalseNegative) == []
    ensures !RowFor(base, CasesById(candidate)[id], None).candidateFalsePass
  {
    CasesByIdMembers(candidate, id);
    SelectsNone(candidate, FalseNegative, CasesById(candidate)[id]);
    hide CasesById;
    hide Select;
    hide OverallPass;
  }

  lemma NoFalsePassReport(rows: seq<Row>)
    requires forall i | 0 <= i < |rows| :: !rows[i].candidateFalsePass
    ensures ReportRows(rows).candidateFalsePass == [] && ReportRows(rows).failOpenDelta <= 0
  {
    NoCandidateFalsePass(rows);
    hide PValue;
    hide VerdictOf;
  }

  lemma {:induction false} EqualArms(rows: seq<Row>)
    requires forall i | 0 <= i < |rows| ::
      rows[i].pair.baselineCorrect == rows[i].pair.candidateCorrect
          && rows[i].baselineFalsePass == rows[i].candidateFalsePass
    ensures Where(Pairs(rows), OnlyBaseline) == [] && Where(Pairs(rows), OnlyCandidate) == []
    ensures BaselineFalsePasses(rows) == CandidateFalsePasses(rows)
  {
    if rows != [] {
      EqualArms(rows[..|rows| - 1]);
      assert Pairs(rows)[..|rows| - 1] == Pairs(rows[..|rows| - 1]);
    }
  }

  lemma SelfComparison(cases: map<Id, Case>, d: Option<Dim>)
    requires d.Some? ==> Known(d.value)
    ensures Unblocked(ComparisonOf(cases, cases, d))
  {
    var ids := Ascending(cases.Keys);
    assert forall k | 0 <= k < |ids| :: ids[k] in ids;
    var rows := Rows(ids, cases, cases, d);
    hide Ascending;
    hide OverallPass;
    hide ReferenceScore;
    hide AggregateScore;
    EqualArms(rows);
  }

  /** A model screened against itself is adopted exactly when its own hard gate passes. */
  lemma SelfMigration(cases: seq<Case>)
    ensures GatePasses(cases) && ComparesWell(cases, cases) <==> GatePasses(cases)
  {
    hide GatePasses;
    hide ComparisonOf;
    hide Unblocked;
    forall d | d in KNOWN ensures Unblocked(ComparisonOf(CasesById(cases), CasesById(cases), Some(d))) {
      SelfComparison(CasesById(cases), Some(d));
    }
    SelfComparison(CasesById(cases), None);
  }
}
