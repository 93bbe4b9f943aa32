/** The hard layer of the gate: kappas recomputed from the cases, the AC1 values reported beside
    fragile ones, and aggregate false negatives (eval/judge_validation.py). */
module ValidationHard {
  import opened Rubric
  import opened Rounding
  import opened Sequencing
  import opened Agreement
  import opened Ac1
  import opened Validation
  import opened ValidationReport
  import opened ValidationLog

  // ----- Kappas -----

  /** The single-run interval of the dimension reaches below the floor. */
  predicate Fragile(lows: Field<map<Dim, real>>, d: Dim) { lows.Is? && d in lows.value && lows.value[d] < GATE_KAPPA }

  ghost function HardAc1(cases: seq<RawCase>, d: Dim): real
    requires cases != [] && Readable(cases, d)
  {
    ReferenceFirstScorable(cases, d);
    Round3(Coefficient(ReferenceColumn(cases, d), JudgeColumn(cases, d), ORDINAL_SCORES))
  }

  lemma ReferenceFirstScorable(cases: seq<RawCase>, d: Dim)
    requires cases != [] && Readable(cases, d)
    ensures Scorable(ReferenceColumn(cases, d), JudgeColumn(cases, d), ORDINAL_SCORES)
    ensures Scorable(JudgeColumn(cases, d), ReferenceColumn(cases, d), ORDINAL_SCORES)
  {
    ColumnsScorable(cases, d);
    ScorableSwaps(JudgeColumn(cases, d), ReferenceColumn(cases, d));
  }

  lemma ScorableSwaps(human: seq<int>, judge: seq<int>)
    requires Scorable(human, judge, ORDINAL_SCORES)
    ensures Scorable(judge, human, ORDINAL_SCORES)
  {
    forall s | s in judge + human ensures s in ORDINAL_SCORES { assert s in human + judge; }
  }

  /** The kappas and AC1 values computed for a set of dimensions. */
  ghost predicate KappasComputed(cases: seq<RawCase>, dims: Dim -> bool, kappas: map<Dim, real>) {
    && (forall d :: d in kappas <==> dims(d))
    && (forall d | d in kappas :: cases != [] && Readable(cases, d) && kappas[d] == HardKappa(cases, d))
  }

  ghost predicate Ac1Computed(cases: seq<RawCase>, lows: Field<map<Dim, real>>, dims: Dim -> bool,
                              ac1: map<Dim, real>) {
    && (forall d :: d in ac1 <==> dims(d) && Fragile(lows, d))
    && (forall d | d in ac1 :: cases != [] && Readable(cases, d) && ac1[d] == HardAc1(cases, d))
  }

  predicate Before(j: nat, d: Dim) { Known(d) && Turn(d) < j }

  function AllBefore(j: nat): Dim -> bool { d => Before(j, d) }

  function InTurn(cases: seq<RawCase>): Dim -> bool { d => ReadInTurn(cases, d) }

  lemma KappasStep(cases: seq<RawCase>, dims: Dim -> bool, more: Dim -> bool, d: Dim, kappas: map<Dim, real>)
    requires cases != [] && Readable(cases, d) && KappasComputed(cases, dims, kappas)
    requires forall e :: more(e) <==> dims(e) || e == d
    ensures KappasComputed(cases, more, kappas[d := HardKappa(cases, d)])
  {
    hide Readable;
    hide HardKappa;
  }

  lemma Ac1Step(cases: seq<RawCase>, lows: Field<map<Dim, real>>, dims: Dim -> bool, more: Dim -> bool, d: Dim,
                ac1: map<Dim, real>)
    requires cases != [] && Readable(cases, d) && Ac1Computed(cases, lows, dims, ac1)
    requires forall e :: more(e) <==> dims(e) || e == d
    ensures Ac1Computed(cases, lows, more, if Fragile(lows, d) then ac1[d := HardAc1(cases, d)] else ac1)
  {
    hide Readable;
    hide Fragile;
    hide HardAc1;
  }

  lemma AllBeforeStep(j: nat, d: Dim, now: Dim -> bool, next: Dim -> bool)
    requires Known(d) && Turn(d) == j && now == AllBefore(j) && next == AllBefore(j + 1)
    ensures forall e :: next(e) <==> now(e) || e == d
  {
    hide Before;
    hide Known;
    forall e ensures next(e) <==> now(e) || e == d { BeforeStep(j, d, e); }
  }

  lemma ComputedNone(cases: seq<RawCase>, lows: Field<map<Dim, real>>)
    ensures KappasComputed(cases, AllBefore(0), map[]) && Ac1Computed(cases, lows, AllBefore(0), map[])
  {
    hide Readable;
    hide Known;
  }

  lemma ComputedSame(cases: seq<RawCase>, lows: Field<map<Dim, real>>, dims: Dim -> bool, same: Dim -> bool,
                     kappas: map<Dim, real>, ac1: map<Dim, real>)
    requires KappasComputed(cases, dims, kappas) && Ac1Computed(cases, lows, dims, ac1)
             && forall d :: same(d) <==> dims(d)
    ensures KappasComputed(cases, same, kappas) && Ac1Computed(cases, lows, same, ac1)
  {
    hide Readable;
    hide Fragile;
    hide HardKappa;
    hide HardAc1;
  }

  lemma BeforeStep(j: nat, d: Dim, e: Dim)
    requires Known(d) && Turn(d) == j
    ensures Before(j + 1, e) <==> Before(j, e) || e == d
  {
    Turns();
    if Known(e) && Turn(e) == j { assert e == QUALITY_DIMENSIONS[j] == d; }
  }

  // ----- Failures of the kappas -----

  ghost predicate LowBefore(cases: seq<RawCase>, j: nat, f: Failure) {
    f.HardKappaLow? && Before(j, f.dim) && LowKappa(cases, f.dim, f.kappa)
  }

  ghost function LowReports(cases: seq<RawCase>, j: nat): ReportSet { f => LowBefore(cases, j, f) }

  ghost function LowCharges(cases: seq<RawCase>, j: nat): ChargeSet {
    (d: Dim, f: Failure) => LowBefore(cases, j, f) && f.dim == d
  }

  ghost predicate KappaReported(cases: seq<RawCase>, f: Failure) {
    (f.HardKappaLow? || f.MalformedCases?) && CasesReported(cases, f)
  }

  ghost function KappaReports(cases: seq<RawCase>): ReportSet { f => KappaReported(cases, f) }

  ghost function KappaCharges(cases: seq<RawCase>): ChargeSet {
    (d: Dim, f: Failure) => f.HardKappaLow? && CasesBlame(cases, d, f)
  }

  /** One more kappa. */
  lemma LowStep(start: Log, log: Log, cases: seq<RawCase>, j: nat, d: Dim, kappa: real)
    requires cases != [] && Known(d) && Turn(d) == j && Readable(cases, d) && kappa == HardKappa(cases, d)
    requires Adds(start, log, LowReports(cases, j), LowCharges(cases, j))
    ensures Adds(start, if kappa < GATE_KAPPA then Failed(log, d, HardKappaLow(d, kappa)) else log,
                 LowReports(cases, j + 1), LowCharges(cases, j + 1))
  {
    hide *;
    var now, next, charged, more := LowReports(cases, j), LowReports(cases, j + 1), LowCharges(cases, j),
        LowCharges(cases, j + 1);
    var g := HardKappaLow(d, kappa);
    forall f ensures next(f) <==> now(f) || (kappa < GATE_KAPPA && f == g) { LowParts(cases, j, d, kappa, d, f); }
    forall e, f ensures more(e, f) <==> charged(e, f) || (kappa < GATE_KAPPA && e == d && f == g) {
      LowParts(cases, j, d, kappa, e, f);
    }
    LowParts(cases, j, d, kappa, d, g);
    if kappa < GATE_KAPPA {
      AddsFailed(start, log, now, next, charged, more, d, g);
    } else {
      AddsSame(start, log, now, next, charged, more);
    }
  }

  lemma LowParts(cases: seq<RawCase>, j: nat, d: Dim, kappa: real, e: Dim, f: Failure)
    requires cases != [] && Known(d) && Turn(d) == j && Readable(cases, d) && kappa == HardKappa(cases, d)
    ensures var low := kappa < GATE_KAPPA && f == HardKappaLow(d, kappa);
      && (LowReports(cases, j + 1)(f) <==> LowReports(cases, j)(f) || low)
      && (LowCharges(cases, j + 1)(e, f) <==> LowCharges(cases, j)(e, f) || (low && e == d))
      && !IsStructural(HardKappaLow(d, kappa))
  {
    hide Readable;
    hide HardKappa;
    hide Before;
    hide Known;
    if f.HardKappaLow? { BeforeStep(j, d, f.dim); }
  }

  /** All dimensions read. */
  lemma AllRead(cases: seq<RawCase>, f: Failure, d: Dim, j: nat)
    requires cases != [] && j == |QUALITY_DIMENSIONS| && forall e | Known(e) && Turn(e) < j :: Readable(cases, e)
    ensures AllGood(cases)
    ensures KappaReports(cases)(f) <==> LowReports(cases, j)(f)
    ensures Known(d) ==> (KappaCharges(cases)(d, f) <==> LowCharges(cases, j)(d, f))
    ensures InTurn(cases)(d) <==> AllBefore(j)(d)
  {
    Turns();
    hide KNOWN;
    hide LowKappa;
    AllReadable(cases);
    hide AllGood;
    hide Readable;
  }

  lemma AllReadable(cases: seq<RawCase>)
    requires cases != [] && forall d | Known(d) :: Readable(cases, d)
    ensures AllGood(cases)
  {
    hide GoodAt;
    assert Known(Safety);
    forall i | 0 <= i < |cases| ensures GoodCase(cases[i]) {
      forall d | d in KNOWN ensures GoodAt(cases[i], d) { assert Readable(cases, d); }
      SomewhereGood(cases[i]);
    }
  }

  lemma SomewhereGood(c: RawCase)
    requires forall d | d in KNOWN :: GoodAt(c, d)
    ensures GoodCase(c)
  {
    assert GoodAt(c, Safety);
  }

  /** The dimension at place j cannot be read, all before it can. */
  ghost predicate Stops(cases: seq<RawCase>, j: nat, stop: Dim) {
    Known(stop) && Turn(stop) == j && !Readable(cases, stop) && forall e | Known(e) && Turn(e) < j :: Readable(cases, e)
  }

  lemma StopTurns(cases: seq<RawCase>, d: Dim, j: nat, stop: Dim)
    requires Stops(cases, j, stop)
    ensures ReadInTurn(cases, d) <==> Before(j, d)
  {
    hide KNOWN;
    hide Readable;
  }

  lemma StopNotGood(cases: seq<RawCase>, j: nat, stop: Dim)
    requires Stops(cases, j, stop)
    ensures !AllGood(cases)
  {
    if AllGood(cases) { GoodEverywhere(cases, stop); }
    hide AllGood;
  }

  lemma LowStops(cases: seq<RawCase>, j: nat, stop: Dim, d: Dim, kappa: real)
    requires Stops(cases, j, stop)
    ensures CasesReported(cases, HardKappaLow(d, kappa)) <==> Before(j, d) && LowKappa(cases, d, kappa)
    ensures forall e ::
                CasesBlame(cases, e, HardKappaLow(d, kappa)) <==> e == d && Before(j, d) && LowKappa(cases, d, kappa)
  {
    StopTurns(cases, d, j, stop);
    hide LowKappa;
    hide ReadInTurn;
    hide Before;
    hide Stops;
  }

  lemma StopsAt(cases: seq<RawCase>, f: Failure, d: Dim, j: nat, stop: Dim)
    requires Stops(cases, j, stop)
    ensures KappaReports(cases)(f) <==> LowReports(cases, j)(f) || f == MalformedCases
    ensures KappaCharges(cases)(d, f) <==> LowCharges(cases, j)(d, f)
    ensures InTurn(cases)(d) <==> AllBefore(j)(d)
  {
    hide *;
    StopTurns(cases, d, j, stop);
    StopNotGood(cases, j, stop);
    if f.HardKappaLow? { LowStops(cases, j, stop, f.dim, f.kappa); }
    StopParts(cases, f, d, j);
  }

  lemma StopParts(cases: seq<RawCase>, f: Failure, d: Dim, j: nat)
    requires !AllGood(cases) && (ReadInTurn(cases, d) <==> Before(j, d))
    requires f.HardKappaLow? ==>
               (CasesReported(cases, f) <==> Before(j, f.dim) && LowKappa(cases, f.dim, f.kappa))
               && (CasesBlame(cases, d, f) <==> d == f.dim && Before(j, f.dim) && LowKappa(cases, f.dim, f.kappa))
    ensures KappaReports(cases)(f) <==> LowReports(cases, j)(f) || f == MalformedCases
    ensures KappaCharges(cases)(d, f) <==> LowCharges(cases, j)(d, f)
    ensures InTurn(cases)(d) <==> AllBefore(j)(d)
  {
    if !f.HardKappaLow? { OnlyMalformed(cases, f); }
    hide CasesReported;
    hide CasesBlame;
    hide AllGood;
    hide LowKappa;
    hide ReadInTurn;
    hide Before;
  }

  lemma OnlyMalformed(cases: seq<RawCase>, f: Failure)
    requires !AllGood(cases)
    ensures f == MalformedCases ==> CasesReported(cases, f)
  {
    hide AllGood;
  }

  lemma OffScaleStops(cases: seq<RawCase>, j: nat, stop: Dim)
    requires Stops(cases, j, stop)
    ensures OffScaleFirst(cases) <==> OffScale(cases, stop)
  {
    Turns();
    hide KNOWN;
    forall d ensures OffScale(cases, d) ==> !Readable(cases, d) { OffScaleIsUnreadable(cases, d); }
    hide OffScale;
    hide Readable;
    if d :| Known(d) && OffScaleIn(cases, d) {
      assert Turn(d) == j && d == QUALITY_DIMENSIONS[j] == stop;
    }
    if OffScale(cases, stop) { assert OffScaleIn(cases, stop); }
  }

  lemma OffScaleIsUnreadable(cases: seq<RawCase>, d: Dim)
    ensures OffScale(cases, d) ==> !Readable(cases, d)
  {
    ColumnsOffScale(cases, d);
    ColumnsDecode(cases, d);
    hide Columns;
    hide OffScale;
  }

  /** The recomputed kappa of one dimension, or the error its cells raise, with the AC1 value of the
      same columns if it is to be reported. */
  method DimensionKappa(cases: seq<RawCase>, lows: Field<map<Dim, real>>, d: Dim)
    returns (r: Result<(real, Option<real>)>)
    requires cases != []
    ensures r.Ok? <==> Readable(cases, d)
    ensures r == Err(ValueError) <==> OffScale(cases, d)
    ensures r.Ok? ==>
                r.value.0 == HardKappa(cases, d)
                    && r.value.1 == if Fragile(lows, d) then Some(HardAc1(cases, d)) else None
  {
    ColumnsDecode(cases, d);
    ColumnsOffScale(cases, d);
    var decoded := Columns(cases, d);
    hide Columns;
    hide Kappa;
    hide Coefficient;
    hide GoodAt;
    hide OffScale;
    if decoded.Err? { return Err(decoded.error); }
    var n := |cases|;
    var judge, reference := decoded.value[..n], decoded.value[n..];
    assert judge == JudgeColumn(cases, d) && reference == ReferenceColumn(cases, d);
    ReferenceFirstScorable(cases, d);
    var kappa := WeightedCohenKappa(judge, reference, ORDINAL_SCORES);
    if !Fragile(lows, d) { return Ok((Round3(kappa.value), None)); }
    var ac1 := GwetAc1(reference, judge, ORDINAL_SCORES);
    return Ok((Round3(kappa.value), Some(Round3(ac1.value))));
  }

  datatype HardRun = HardRun(log: Log, kappas: map<Dim, real>, ac1: map<Dim, real>, complete: bool)

  /** What a pass over the kappas leaves behind. */
  ghost predicate KappasChecked(start: Log, cases: seq<RawCase>, lows: Field<map<Dim, real>>, run: HardRun) {
    && Adds(start, run.log, KappaReports(cases), KappaCharges(cases))
    && KappasComputed(cases, InTurn(cases), run.kappas) && Ac1Computed(cases, lows, InTurn(cases), run.ac1)
    && (run.complete <==> AllGood(cases))
  }

  /** ... up to place j. */
  ghost predicate KappasSoFar(start: Log, cases: seq<RawCase>, lows: Field<map<Dim, real>>, j: nat, run: HardRun) {
    && Adds(start, run.log, LowReports(cases, j), LowCharges(cases, j))
    && KappasComputed(cases, AllBefore(j), run.kappas) && Ac1Computed(cases, lows, AllBefore(j), run.ac1)
    && forall e | Known(e) && Turn(e) < j :: Readable(cases, e)
  }

  /** The hard kappas, dimension by dimension; the first dimension that cannot be read ends
      the pass, as a structural failure or, for an off-scale score, as an error. */
  method CheckKappas(start: Log, cases: seq<RawCase>, lows: Field<map<Dim, real>>) returns (r: Result<HardRun>)
    requires cases != []
    ensures r.Err? <==> OffScaleFirst(cases)
    ensures r.Err? ==> r.error == ValueError
    ensures r.Ok? ==> KappasChecked(start, cases, lows, r.value)
  {
    hide *;
    var run := HardRun(start, map[], map[], true);
    NothingChecked(start, cases, lows);
    PlacesKnown();
    for j := 0 to |QUALITY_DIMENSIONS|
      invariant KappasSoFar(start, cases, lows, j, run)
    {
      var dim := QUALITY_DIMENSIONS[j];
      var result := DimensionKappa(cases, lows, dim);
      if result.Err? {
        PassStops(start, cases, lows, j, dim, run);
        if result.error == ValueError { return Err(ValueError); }
        return Ok(HardRun(Structural(run.log, MalformedCases), run.kappas, run.ac1, false));
      }
      var (kappa, ac1) := result.value;
      PassStep(start, cases, lows, j, dim, run, kappa, ac1);
      run := Extended(run, dim, kappa, ac1);
    }
    PassEnds(start, cases, lows, run);
    return Ok(run.(complete := true));
  }

  function Extended(run: HardRun, d: Dim, kappa: real, ac1: Option<real>): HardRun
    requires Known(d)
  {
    HardRun(if kappa < GATE_KAPPA then Failed(run.log, d, HardKappaLow(d, kappa)) else run.log,
            run.kappas[d := kappa], if ac1.Some? then run.ac1[d := ac1.value] else run.ac1, run.complete)
  }

  lemma PlacesKnown()
    ensures forall j | 0 <= j < |QUALITY_DIMENSIONS| :: Known(QUALITY_DIMENSIONS[j]) && Turn(QUALITY_DIMENSIONS[j]) == j
  {
    Turns();
  }

  lemma NothingChecked(start: Log, cases: seq<RawCase>, lows: Field<map<Dim, real>>)
    ensures KappasSoFar(start, cases, lows, 0, HardRun(start, map[], map[], true))
  {
    ComputedNone(cases, lows);
    AddsNothing(start);
    assert forall f :: !LowBefore(cases, 0, f);
    hide LowBefore;
    hide Adds;
    hide KappasComputed;
    hide Ac1Computed;
    hide Readable;
    AddsSame(start, start, NoReports(), LowReports(cases, 0), NoCharges(), LowCharges(cases, 0));
  }

  lemma PassStep(start: Log, cases: seq<RawCase>, lows: Field<map<Dim, real>>, j: nat, d: Dim, run: HardRun,
                 kappa: real, ac1: Option<real>)
    requires cases != [] && Known(d) && Turn(d) == j && KappasSoFar(start, cases, lows, j, run) && Readable(cases, d)
    requires kappa == HardKappa(cases, d) && ac1 == if Fragile(lows, d) then Some(HardAc1(cases, d)) else None
    ensures KappasSoFar(start, cases, lows, j + 1, Extended(run, d, kappa, ac1))
  {
    var now, next := AllBefore(j), AllBefore(j + 1);
    AllBeforeStep(j, d, now, next);
    KappasStep(cases, now, next, d, run.kappas);
    Ac1Step(cases, lows, now, next, d, run.ac1);
    LowStep(start, run.log, cases, j, d, kappa);
    ReadableStep(cases, j, d);
    hide Adds;
    hide KappasComputed;
    hide Ac1Computed;
    hide HardKappa;
    hide HardAc1;
    hide Fragile;
    hide Readable;
    hide AllBefore;
    hide Known;
  }

  lemma ReadableStep(cases: seq<RawCase>, j: nat, d: Dim)
    requires Known(d) && Turn(d) == j && Readable(cases, d) && forall e | Known(e) && Turn(e) < j :: Readable(cases, e)
    ensures forall e | Known(e) && Turn(e) < j + 1 :: Readable(cases, e)
  {
    Turns();
    hide KNOWN;
    hide Readable;
    forall e | Known(e) && Turn(e) < j + 1 ensures Readable(cases, e) {
      if Turn(e) == j { assert e == QUALITY_DIMENSIONS[j] == d; }
    }
  }

  lemma PassStops(start: Log, cases: seq<RawCase>, lows: Field<map<Dim, real>>, j: nat, stop: Dim, run: HardRun)
    requires cases != [] && KappasSoFar(start, cases, lows, j, run) && Known(stop) && Turn(stop) == j
             && !Readable(cases, stop)
    ensures OffScaleFirst(cases) <==> OffScale(cases, stop)
    ensures KappasChecked(start, cases, lows, HardRun(Structural(run.log, MalformedCases), run.kappas, run.ac1, false))
  {
    assert Stops(cases, j, stop);
    hide *;
    SoFarParts(start, cases, lows, j, run);
    OffScaleStops(cases, j, stop);
    StopNotGood(cases, j, stop);
    ghost var low, all, charged, more := LowReports(cases, j), KappaReports(cases), LowCharges(cases, j),
        KappaCharges(cases);
    forall f ensures all(f) <==> low(f) || f == MalformedCases { StopsAt(cases, f, stop, j, stop); }
    forall d, f ensures more(d, f) <==> charged(d, f) { StopsAt(cases, f, d, j, stop); }
    ghost var dims, same := AllBefore(j), InTurn(cases);
    forall d ensures same(d) <==> dims(d) { StopsAt(cases, MalformedCases, d, j, stop); }
    ComputedSame(cases, lows, dims, same, run.kappas, run.ac1);
    AddsSame(start, run.log, low, low, charged, more);
    MalformedIsStructural();
    AddsStructural(start, run.log, low, all, more, MalformedCases);
    CheckedFrom(start, cases, lows, HardRun(Structural(run.log, MalformedCases), run.kappas, run.ac1, false));
  }

  lemma MalformedIsStructural()
    ensures IsStructural(MalformedCases)
  {
  }

  lemma SoFarParts(start: Log, cases: seq<RawCase>, lows: Field<map<Dim, real>>, j: nat, run: HardRun)
    requires KappasSoFar(start, cases, lows, j, run)
    ensures Adds(start, run.log, LowReports(cases, j), LowCharges(cases, j))
    ensures KappasComputed(cases, AllBefore(j), run.kappas) && Ac1Computed(cases, lows, AllBefore(j), run.ac1)
    ensures forall e | Known(e) && Turn(e) < j :: Readable(cases, e)
  {
    hide Adds;
    hide KappasComputed;
    hide Ac1Computed;
    hide Readable;
    hide Known;
  }

  lemma CheckedFrom(start: Log, cases: seq<RawCase>, lows: Field<map<Dim, real>>, run: HardRun)
    requires Adds(start, run.log, KappaReports(cases), KappaCharges(cases))
    requires KappasComputed(cases, InTurn(cases), run.kappas) && Ac1Computed(cases, lows, InTurn(cases), run.ac1)
    requires run.complete <==> AllGood(cases)
    ensures KappasChecked(start, cases, lows, run)
  {
    hide Adds;
    hide KappasComputed;
    hide Ac1Computed;
    hide AllGood;
  }

  lemma PassEnds(start: Log, cases: seq<RawCase>, lows: Field<map<Dim, real>>, run: HardRun)
    requires cases != [] && KappasSoFar(start, cases, lows, |QUALITY_DIMENSIONS|, run)
    ensures !OffScaleFirst(cases) && KappasChecked(start, cases, lows, run.(complete := true))
  {
    hide *;
    ghost var j := |QUALITY_DIMENSIONS|;
    SoFarParts(start, cases, lows, j, run);
    AllRead(cases, MalformedCases, Safety, j);
    NeverOffScale(cases);
    ghost var low, all, charged, more := LowReports(cases, j), KappaReports(cases), LowCharges(cases, j),
        KappaCharges(cases);
    forall f ensures all(f) <==> low(f) { AllRead(cases, f, Safety, j); }
    forall d, f | Known(d) ensures more(d, f) <==> charged(d, f) { AllRead(cases, f, d, j); }
    ghost var dims, same := AllBefore(j), InTurn(cases);
    forall d ensures same(d) <==> dims(d) { AllRead(cases, MalformedCases, d, j); }
    ComputedSame(cases, lows, dims, same, run.kappas, run.ac1);
    AddsSame(start, run.log, low, all, charged, more);
    CheckedFrom(start, cases, lows, run.(complete := true));
  }

  lemma NeverOffScale(cases: seq<RawCase>)
    requires AllGood(cases)
    ensures !OffScaleFirst(cases)
  {
    hide AllGood;
    hide OffScale;
    hide Readable;
    forall d | Known(d) ensures !OffScale(cases, d) {
      GoodEverywhere(cases, d);
      GoodIsReadable(cases, d);
      OffScaleIsUnreadable(cases, d);
    }
  }

  lemma GoodIsReadable(cases: seq<RawCase>, d: Dim)
    requires AllGood(cases) && Known(d)
    ensures Readable(cases, d)
  {
    GoodEverywhere(cases, d);
    hide AllGood;
    hide GoodAt;
  }

  // ----- Aggregate false negatives -----

  ghost predicate FalseReported(cases: seq<RawCase>, f: Failure) { f.HardFalseNegatives? && CasesReported(cases, f) }

  ghost function FalseReports(cases: seq<RawCase>): ReportSet { f => FalseReported(cases, f) }

  ghost function FalseCharges(cases: seq<RawCase>): ChargeSet {
    (d: Dim, f: Failure) => f.HardFalseNegatives? && CasesBlame(cases, d, f)
  }

  lemma IdsStep(cases: seq<RawCase>, i: nat, p: RawCase -> bool)
    requires i < |cases|
    ensures IdsOf(Select(cases[..i + 1], p)) == IdsOf(Select(cases[..i], p)) + if p(cases[i]) then [cases[i].id] else []
  {
    assert cases[..i + 1][..i] == cases[..i];
  }

  /** One more false negative, under each dimension it is charged to. */
  function Blame(byDimension: map<Dim, seq<Id>>, c: RawCase): (out: map<Dim, seq<Id>>)
    requires byDimension.Keys == KNOWN && GoodCase(c)
    ensures out.Keys == KNOWN
  {
    map d | d in KNOWN :: if Charges(c, d) then byDimension[d] + [c.id] else byDimension[d]
  }

  lemma BlameStep(cases: seq<RawCase>, i: nat, byDimension: map<Dim, seq<Id>>, d: Dim)
    requires i < |cases| && GoodCase(cases[i]) && byDimension.Keys == KNOWN && Known(d)
    requires byDimension[d] == ChargedIds(cases[..i], d)
    ensures FalseNegative(cases[i]) ==> Blame(byDimension, cases[i])[d] == ChargedIds(cases[..i + 1], d)
    ensures !FalseNegative(cases[i]) ==> byDimension[d] == ChargedIds(cases[..i + 1], d)
  {
    IdsStep(cases, i, ChargedTo(d));
    hide KNOWN;
    hide GoodCase;
    hide FalseNegative;
  }

  lemma NothingFound(d: Dim)
    ensures FalseNegativeIds([]) == [] && ChargedIds([], d) == []
  {
  }

  /** Outputs the aggregate passes and the reference fails, with the dimensions they are charged to. */
  method CheckFalseNegatives(start: Log, cases: seq<RawCase>) returns (log: Log)
    requires AllGood(cases)
    ensures Adds(start, log, FalseReports(cases), FalseCharges(cases))
  {
    hide FalseNegative;
    hide Charges;
    hide GoodCase;
    hide KNOWN;
    hide Adds;
    hide Blame;
    hide FalseNegativeIds;
    hide ChargedIds;
    hide FalseReports;
    hide FalseCharges;
    hide ChargeIds;
    var ids: seq<Id> := [];
    var byDimension: map<Dim, seq<Id>> := map d | d in KNOWN :: [];
    NothingFound(Safety);
    forall d ensures ChargedIds([], d) == [] { NothingFound(d); }
    assert cases[..0] == [];
    for i := 0 to |cases|
      invariant byDimension.Keys == KNOWN && ids == FalseNegativeIds(cases[..i])
      invariant forall d | d in KNOWN :: byDimension[d] == ChargedIds(cases[..i], d)
    {
      var c := cases[i];
      FalseStep(cases, i);
      forall d | d in KNOWN
        ensures FalseNegative(c) ==> Blame(byDimension, c)[d] == ChargedIds(cases[..i + 1], d)
        ensures !FalseNegative(c) ==> byDimension[d] == ChargedIds(cases[..i + 1], d)
      {
        BlameStep(cases, i, byDimension, d);
      }
      if FalseNegative(c) {
        ids := ids + [c.id];
        byDimension := Blame(byDimension, c);
      }
    }
    assert cases[..|cases|] == cases;
    log := ChargeIds(start, ids, byDimension);
    ChargeIdsAdds(start, cases, byDimension);
  }

  lemma FalseStep(cases: seq<RawCase>, i: nat)
    requires i < |cases| && GoodCase(cases[i])
    ensures FalseNegativeIds(cases[..i + 1])
                == FalseNegativeIds(cases[..i]) + if FalseNegative(cases[i]) then [cases[i].id] else []
  {
    IdsStep(cases, i, FalselyPassed);
    hide GoodCase;
    hide FalseNegative;
  }

  function ChargeIds(log: Log, ids: seq<Id>, byDimension: map<Dim, seq<Id>>): Log
    requires byDimension.Keys == KNOWN
  {
    if ids == [] then log
    else log.(failures := log.failures + [HardFalseNegatives(ids)],
              charged := map d | d in KNOWN ::
                if byDimension[d] != [] then log.charged[d] + [HardFalseNegatives(byDimension[d])] else log.charged[d])
  }

  lemma ChargeIdsAt(log: Log, ids: seq<Id>, byDimension: map<Dim, seq<Id>>, d: Dim)
    requires byDimension.Keys == KNOWN && Known(d)
    ensures var out := ChargeIds(log, ids, byDimension);
      && out.structural == log.structural
      && out.failures == log.failures + (if ids == [] then [] else [HardFalseNegatives(ids)])
      && out.charged[d]
          == log.charged[d] + if ids == [] || byDimension[d] == [] then [] else [HardFalseNegatives(byDimension[d])]
  {
    hide KNOWN;
  }

  /** Nothing is charged when nothing is a false negative. */
  lemma ChargesAreFalse(cases: seq<RawCase>, d: Dim)
    requires AllGood(cases) && Known(d) && FalseNegativeIds(cases) == []
    ensures ChargedIds(cases, d) == []
  {
    NoFalseNegatives(cases);
    NothingCharged(cases, d);
    hide AllGood;
    hide ChargedIds;
    hide FalseNegativeIds;
  }

  lemma ChargeIdsAdds(start: Log, cases: seq<RawCase>, byDimension: map<Dim, seq<Id>>)
    requires AllGood(cases) && byDimension.Keys == KNOWN
             && forall d | d in KNOWN :: byDimension[d] == ChargedIds(cases, d)
    ensures Adds(start, ChargeIds(start, FalseNegativeIds(cases), byDimension), FalseReports(cases),
              FalseCharges(cases))
  {
    hide KNOWN;
    hide AllGood;
    hide ChargeIds;
    hide FalseNegativeIds;
    hide ChargedIds;
    var ids := FalseNegativeIds(cases);
    var out := ChargeIds(start, ids, byDimension);
    KnownDimensions(Safety);
    ChargeIdsAt(start, ids, byDimension, Safety);
    forall f
      ensures f in out.failures <==> f in start.failures || FalseReports(cases)(f)
      ensures f in out.structural <==> f in start.structural || (FalseReports(cases)(f) && IsStructural(f))
    {
    }
    forall d, f | Known(d) ensures f in out.charged[d] <==> f in start.charged[d] || FalseCharges(cases)(d, f) {
      ChargeIdsAt(start, ids, byDimension, d);
      if ids == [] { ChargesAreFalse(cases, d); }
    }
  }

  // ----- The hard layer as a whole -----

  ghost function HardReports(compare: Option<CompareDoc>): ReportSet { f => HardReported(compare, f) }

  ghost function HardCharges(compare: Option<CompareDoc>): ChargeSet { (d, f) => HardBlames(compare, d, f) }

  /** The kappas and AC1 values of the hard cases, if there are any. */
  ghost predicate HardComputed(compare: Option<CompareDoc>, lows: Field<map<Dim, real>>, kappas: map<Dim, real>,
                               ac1: map<Dim, real>) {
    match HardCases(compare)
    case None => kappas == map[] && ac1 == map[]
    case Some(cases) => KappasComputed(cases, InTurn(cases), kappas) && Ac1Computed(cases, lows, InTurn(cases), ac1)
  }

  lemma RunsChecked(start: Log, compare: Option<CompareDoc>)
    ensures Adds(start, if EnoughRuns(compare) then start else Structural(start, TooFewRuns), RunsReports(compare),
              NoCharges())
  {
    AddsNothing(start);
    StructuralAdds(start, TooFewRuns);
    hide Adds;
    hide Structural;
    hide EnoughRuns;
    if EnoughRuns(compare) {
      AddsSame(start, start, NoReports(), RunsReports(compare), NoCharges(), NoCharges());
    } else {
      AddsSame(start, Structural(start, TooFewRuns), Just(TooFewRuns), RunsReports(compare), NoCharges(), NoCharges());
    }
  }

  function RunsReports(compare: Option<CompareDoc>): ReportSet { f => f == TooFewRuns && !EnoughRuns(compare) }

  lemma HardPartsNone(compare: Option<CompareDoc>, d: Dim, f: Failure)
    requires HardCases(compare) == None
    ensures HardReports(compare)(f) <==> RunsReports(compare)(f) || f == NoHardCases
    ensures !HardCharges(compare)(d, f)
  {
    hide HardCases;
    hide EnoughRuns;
    hide CasesReported;
    hide CasesBlame;
  }

  lemma HardParts(compare: Option<CompareDoc>, d: Dim, f: Failure, cases: seq<RawCase>)
    requires HardCases(compare) == Some(cases)
    ensures HardReports(compare)(f) <==> RunsReports(compare)(f) || KappaReports(cases)(f) || FalseReports(cases)(f)
    ensures HardCharges(compare)(d, f) <==> KappaCharges(cases)(d, f) || FalseCharges(cases)(d, f)
    ensures !AllGood(cases) ==> !FalseReports(cases)(f) && !FalseCharges(cases)(d, f)
  {
    CaseKinds(cases, d, f);
    hide HardCases;
    hide EnoughRuns;
    hide CasesReported;
    hide CasesBlame;
    hide AllGood;
  }

  lemma CaseKinds(cases: seq<RawCase>, d: Dim, f: Failure)
    ensures CasesReported(cases, f) ==>
                f.HardKappaLow? || f.MalformedCases? || (f.HardFalseNegatives? && AllGood(cases))
    ensures CasesBlame(cases, d, f) ==> f.HardKappaLow? || (f.HardFalseNegatives? && AllGood(cases))
  {
    hide AllGood;
    hide LowKappa;
    hide ReadInTurn;
    hide FalseNegativeIds;
    hide ChargedIds;
  }

  method CheckHard(start: Log, compare: Option<CompareDoc>, lows: Field<map<Dim, real>>) returns (r: Result<HardRun>)
    ensures r.Err? <==> OffScaleHard(compare)
    ensures r.Err? ==> r.error == ValueError
    ensures r.Ok? ==> Adds(start, r.value.log, HardReports(compare), HardCharges(compare))
    ensures r.Ok? ==> HardComputed(compare, lows, r.value.kappas, r.value.ac1)
  {
    hide *;
    RunsChecked(start, compare);
    HardPlaces(compare);
    var log := if EnoughRuns(compare) then start else Structural(start, TooFewRuns);
    ghost var none, all, more := RunsReports(compare), HardReports(compare), HardCharges(compare);
    if HardCases(compare) == None {
      forall f ensures all(f) <==> none(f) || f == NoHardCases { HardPartsNone(compare, Safety, f); }
      forall d, f ensures !more(d, f) { HardPartsNone(compare, d, f); }
      NoChargesAre();
      AddsStructural(start, log, none, all, NoCharges(), NoHardCases);
      log := Structural(log, NoHardCases);
      AddsSame(start, log, all, all, NoCharges(), more);
      HardComputedFrom(compare, lows, map[], map[]);
      return Ok(HardRun(log, map[], map[], false));
    }
    var cases := HardCases(compare).value;
    var checked := CheckKappas(log, cases, lows);
    if checked.Err? { return checked; }
    var run := checked.value;
    CheckedParts(log, cases, lows, run);
    HardComputedFrom(compare, lows, run.kappas, run.ac1);
    if run.complete {
      var last := CheckFalseNegatives(run.log, cases);
      HardBoth(start, log, run.log, last, compare, cases);
      return Ok(run.(log := last));
    }
    HardKappasOnly(start, log, run.log, compare, cases);
    return Ok(run);
  }

  lemma HardPlaces(compare: Option<CompareDoc>)
    ensures HardCases(compare).Some? ==> HardCases(compare).value != []
    ensures IsStructural(NoHardCases)
    ensures OffScaleHard(compare) <==> HardCases(compare).Some? && OffScaleFirst(HardCases(compare).value)
  {
  }

  lemma NoChargesAre()
    ensures forall d, f :: !NoCharges()(d, f)
  {
  }

  lemma CheckedParts(start: Log, cases: seq<RawCase>, lows: Field<map<Dim, real>>, run: HardRun)
    requires KappasChecked(start, cases, lows, run)
    ensures Adds(start, run.log, KappaReports(cases), KappaCharges(cases)) && (run.complete <==> AllGood(cases))
    ensures KappasComputed(cases, InTurn(cases), run.kappas) && Ac1Computed(cases, lows, InTurn(cases), run.ac1)
  {
    hide Adds;
    hide KappasComputed;
    hide Ac1Computed;
    hide AllGood;
  }

  lemma HardComputedFrom(compare: Option<CompareDoc>, lows: Field<map<Dim, real>>, kappas: map<Dim, real>,
                         ac1: map<Dim, real>)
    ensures HardCases(compare) == None ==> HardComputed(compare, lows, map[], map[])
    ensures HardCases(compare).Some? ==>
              var cases := HardCases(compare).value;
              KappasComputed(cases, InTurn(cases), kappas) && Ac1Computed(cases, lows, InTurn(cases), ac1) ==>
                  HardComputed(compare, lows, kappas, ac1)
  {
    hide KappasComputed;
    hide Ac1Computed;
    hide HardCases;
  }

  lemma HardBoth(start: Log, log: Log, middle: Log, last: Log, compare: Option<CompareDoc>, cases: seq<RawCase>)
    requires HardCases(compare) == Some(cases) && Adds(start, log, RunsReports(compare), NoCharges())
    requires Adds(log, middle, KappaReports(cases), KappaCharges(cases))
             && Adds(middle, last, FalseReports(cases), FalseCharges(cases))
    ensures Adds(start, last, HardReports(compare), HardCharges(compare))
  {
    hide *;
    var runs, low, false_, all := RunsReports(compare), KappaReports(cases), FalseReports(cases), HardReports(compare);
    var charged, more, whole := KappaCharges(cases), FalseCharges(cases), HardCharges(compare);
    var some: ReportSet := f => low(f) || false_(f);
    forall f ensures all(f) <==> runs(f) || some(f) { HardParts(compare, Safety, f, cases); }
    forall d, f ensures whole(d, f) <==> charged(d, f) || more(d, f) { HardParts(compare, d, f, cases); }
    NoChargesAre();
    AddsBoth(log, middle, last, low, false_, some, charged, more, whole);
    AddsBoth(start, log, last, runs, some, all, NoCharges(), whole, whole);
  }

  lemma HardKappasOnly(start: Log, log: Log, last: Log, compare: Option<CompareDoc>, cases: seq<RawCase>)
    requires HardCases(compare) == Some(cases) && Adds(start, log, RunsReports(compare), NoCharges())
    requires Adds(log, last, KappaReports(cases), KappaCharges(cases)) && !AllGood(cases)
    ensures Adds(start, last, HardReports(compare), HardCharges(compare))
  {
    hide *;
    var runs, low, all, charged, whole := RunsReports(compare), KappaReports(cases), HardReports(compare),
        KappaCharges(cases), HardCharges(compare);
    forall f ensures all(f) <==> runs(f) || low(f) { HardParts(compare, Safety, f, cases); }
    forall d, f ensures whole(d, f) <==> charged(d, f) { HardParts(compare, d, f, cases); }
    NoChargesAre();
    AddsBoth(start, log, last, runs, low, all, NoCharges(), charged, whole);
  }
}
