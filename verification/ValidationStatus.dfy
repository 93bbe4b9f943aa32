/** Computing the gate: the failures collected on the way, the per-dimension scope, and the
    guard for scoped gating (eval/judge_validation.py). */
module ValidationStatus {
  import opened Rubric
  import opened Validation
  import opened ValidationReport
  import opened ValidationLog
  import opened ValidationHard

  // ----- The clean layer -----

  function CleanReports(clean: Field<CleanLayer>): ReportSet { f => CleanReported(clean, f) }

  function CleanCharges(clean: Field<CleanLayer>): ChargeSet { (d, f) => CleanBlames(clean, d, f) }

  /** The part of the clean layer's failures that concerns its kappas, up to a place in the rubric. */
  predicate LowBefore(clean: Field<CleanLayer>, j: nat, f: Failure) {
    (f.NoCleanKappas? || (f.CleanKappaLow? && Turn(f.dim) < j)) && CleanReported(clean, f)
  }

  function LowReports(clean: Field<CleanLayer>, j: nat): ReportSet { f => LowBefore(clean, j, f) }

  function LowCharges(clean: Field<CleanLayer>, j: nat): ChargeSet {
    (d, f) => f == CleanKappaLow(d) && LowBefore(clean, j, f)
  }

  lemma LowBeforeStep(clean: Field<CleanLayer>, j: nat, d: Dim, f: Failure)
    requires clean.Is? && Known(d) && Turn(d) == j
    ensures LowBefore(clean, j + 1, f) <==>
                LowBefore(clean, j, f) || (f == CleanKappaLow(d) && !CleanKappaOk(clean.value, d))
  {
    Turns();
    if f.CleanKappaLow? && Turn(f.dim) == j && Known(f.dim) { assert f.dim == QUALITY_DIMENSIONS[j] == d; }
  }

  lemma LowParts(clean: Field<CleanLayer>, j: nat, d: Dim, now: ReportSet, next: ReportSet, charged: ChargeSet,
                 more: ChargeSet)
    requires clean.Is? && Known(d) && Turn(d) == j
    requires now == LowReports(clean, j) && next == LowReports(clean, j + 1)
    requires charged == LowCharges(clean, j) && more == LowCharges(clean, j + 1)
    ensures var low := !CleanKappaOk(clean.value, d);
      && (forall f :: next(f) <==> now(f) || (low && f == CleanKappaLow(d)))
      && (forall e, f | Known(e) :: more(e, f) <==> charged(e, f) || (low && e == d && f == CleanKappaLow(d)))
  {
    hide LowBefore;
    hide CleanKappaOk;
    hide Known;
    forall f ensures next(f) <==> now(f) || (!CleanKappaOk(clean.value, d) && f == CleanKappaLow(d)) {
      LowBeforeStep(clean, j, d, f);
    }
    forall e, f | Known(e)
      ensures more(e, f) <==> charged(e, f) || (!CleanKappaOk(clean.value, d) && e == d && f == CleanKappaLow(d))
    {
      LowBeforeStep(clean, j, d, f);
    }
  }

  lemma LowStep(start: Log, log: Log, clean: Field<CleanLayer>, j: nat, d: Dim)
    requires clean.Is? && Known(d) && Turn(d) == j
    requires Adds(start, log, LowReports(clean, j), LowCharges(clean, j))
    ensures CleanKappaOk(clean.value, d) ==> Adds(start, log, LowReports(clean, j + 1), LowCharges(clean, j + 1))
    ensures !CleanKappaOk(clean.value, d) ==>
              Adds(start, Failed(log, d, CleanKappaLow(d)), LowReports(clean, j + 1), LowCharges(clean, j + 1))
  {
    hide *;
    var now, next, charged, more := LowReports(clean, j), LowReports(clean, j + 1), LowCharges(clean, j),
        LowCharges(clean, j + 1);
    LowParts(clean, j, d, now, next, charged, more);
    if CleanKappaOk(clean.value, d) {
      AddsSame(start, log, now, next, charged, more);
    } else {
      LowIsNumber(d);
      AddsFailed(start, log, now, next, charged, more, d, CleanKappaLow(d));
    }
  }

  lemma LowIsNumber(d: Dim)
    ensures !IsStructural(CleanKappaLow(d))
  {
  }

  /** The clean kappas, or the failure to find any. */
  method CheckCleanKappas(start: Log, clean: Field<CleanLayer>) returns (log: Log)
    requires clean.Is?
    ensures Adds(start, log, LowReports(clean, |QUALITY_DIMENSIONS|), LowCharges(clean, |QUALITY_DIMENSIONS|))
  {
    hide Adds;
    hide LowReports;
    hide LowCharges;
    hide Structural;
    hide Failed;
    hide KNOWN;
    Turns();
    log := start;
    if !clean.value.kappas.Is? {
      NoKappas(start, clean);
      return Structural(log, NoCleanKappas);
    }
    var kappas := clean.value.kappas.value;
    LowStart(start, clean);
    for j := 0 to |QUALITY_DIMENSIONS|
      invariant Adds(start, log, LowReports(clean, j), LowCharges(clean, j))
    {
      var dim := QUALITY_DIMENSIONS[j];
      LowStep(start, log, clean, j, dim);
      if dim !in kappas || kappas[dim] < GATE_KAPPA { log := Failed(log, dim, CleanKappaLow(dim)); }
    }
  }

  lemma LowStart(l: Log, clean: Field<CleanLayer>)
    requires clean.Is? && clean.value.kappas.Is?
    ensures Adds(l, l, LowReports(clean, 0), LowCharges(clean, 0))
  {
  }

  lemma NoKappas(l: Log, clean: Field<CleanLayer>)
    requires clean.Is? && !clean.value.kappas.Is?
    ensures var j := |QUALITY_DIMENSIONS|;
      Adds(l, Structural(l, NoCleanKappas), LowReports(clean, j), LowCharges(clean, j))
  {
    var j := |QUALITY_DIMENSIONS|;
    assert forall f :: LowBefore(clean, j, f) <==> f == NoCleanKappas;
    hide LowBefore;
    StructuralAdds(l, NoCleanKappas);
    hide Adds;
    hide Structural;
    AddsSame(l, Structural(l, NoCleanKappas), Just(NoCleanKappas), LowReports(clean, j), NoCharges(),
        LowCharges(clean, j));
  }

  lemma CleanWithoutLayer(l: Log, clean: Field<CleanLayer>)
    requires !clean.Is?
    ensures Adds(l, Structural(l, NoCleanLayer), CleanReports(clean), CleanCharges(clean))
  {
    assert forall f :: CleanReported(clean, f) <==> f == NoCleanLayer;
    hide CleanReported;
    StructuralAdds(l, NoCleanLayer);
    hide Adds;
    hide Structural;
    AddsSame(l, Structural(l, NoCleanLayer), Just(NoCleanLayer), CleanReports(clean), NoCharges(), CleanCharges(clean));
  }

  /** The kappas' failures with those of the false-negative count. */
  predicate CountedBefore(clean: Field<CleanLayer>, f: Failure) {
    (f.NoCleanKappas? || f.CleanKappaLow? || f.CleanFalseNegatives?) && CleanReported(clean, f)
  }

  function CountReports(clean: Field<CleanLayer>): ReportSet { f => CountedBefore(clean, f) }

  lemma CountParts(clean: Field<CleanLayer>, f: Failure, d: Dim)
    requires clean.Is?
    ensures var j, bad := |QUALITY_DIMENSIONS|, !CleanPasses(clean.value);
      && (CountReports(clean)(f) <==> LowReports(clean, j)(f) || (bad && f == CleanFalseNegatives))
      && (CleanCharges(clean)(d, f) <==> LowCharges(clean, j)(d, f) || (bad && f == CleanFalseNegatives))
      && (CleanReports(clean)(f) <==>
            CountReports(clean)(f) || (f == NoCleanCases && !(clean.value.n.Is? && clean.value.n.value > 0)))
  {
    Turns();
    hide CleanKappaOk;
    hide CleanPasses;
    hide KNOWN;
  }

  method CheckClean(start: Log, clean: Field<CleanLayer>) returns (log: Log)
    ensures Adds(start, log, CleanReports(clean), CleanCharges(clean))
  {
    hide *;
    if !clean.Is? {
      CleanWithoutLayer(start, clean);
      return Structural(start, NoCleanLayer);
    }
    var layer := clean.value;
    log := CheckCleanKappas(start, clean);
    ghost var low, counted, all := LowReports(clean, |QUALITY_DIMENSIONS|), CountReports(clean), CleanReports(clean);
    ghost var charged, more := LowCharges(clean, |QUALITY_DIMENSIONS|), CleanCharges(clean);
    forall f ensures counted(f) <==> low(f) || (!CleanPasses(layer) && f == CleanFalseNegatives) {
      CountParts(clean, f, Safety);
    }
    forall f ensures all(f) <==> counted(f) || (f == NoCleanCases && !(layer.n.Is? && layer.n.value > 0)) {
      CountParts(clean, f, Safety);
    }
    forall d, f ensures more(d, f) <==> charged(d, f) || (!CleanPasses(layer) && f == CleanFalseNegatives) {
      CountParts(clean, f, d);
    }
    CleanKinds(layer);
    if layer.falseNegatives != Is(0.0) {
      AddsEverywhere(start, log, low, counted, charged, more, CleanFalseNegatives);
      log := FailedEverywhere(log, CleanFalseNegatives);
    } else {
      AddsSame(start, log, low, counted, charged, more);
    }
    if !layer.n.Is? || layer.n.value <= 0 {
      AddsStructural(start, log, counted, all, more, NoCleanCases);
      log := Structural(log, NoCleanCases);
    } else {
      AddsSame(start, log, counted, all, more, more);
    }
  }

  lemma CleanKinds(layer: CleanLayer)
    ensures IsStructural(NoCleanCases) && !IsStructural(CleanFalseNegatives)
    ensures CleanPasses(layer) <==> layer.falseNegatives == Is(0.0)
  {
  }

  // ----- Provenance -----

  function ProvenanceReports(a: Option<AgreementDoc>, c: Option<CompareDoc>, shipped: string): ReportSet {
    f => ProvenanceReported(a, c, shipped, f)
  }

  /** The model first, then the agreement's prompt version, then the other one. */
  predicate ProvenanceUpTo(a: Option<AgreementDoc>, c: Option<CompareDoc>, shipped: string, n: nat, f: Failure) {
    && ProvenanceReported(a, c, shipped, f)
    && ((n >= 1 && f.ModelMismatch?) || (n >= 2 && (f.NoPromptVersion? || f.PromptMismatch?)))
  }

  function PartialReports(a: Option<AgreementDoc>, c: Option<CompareDoc>, shipped: string, n: nat): ReportSet {
    f => ProvenanceUpTo(a, c, shipped, n, f)
  }

  lemma ProvenanceParts(a: Option<AgreementDoc>, c: Option<CompareDoc>, shipped: string, f: Failure)
    ensures !PartialReports(a, c, shipped, 0)(f)
    ensures PartialReports(a, c, shipped, 1)(f) <==> f == ModelMismatch && AgreementModel(a) != CompareModel(c)
    ensures PartialReports(a, c, shipped, 2)(f) <==>
              PartialReports(a, c, shipped, 1)(f)
              || (f == NoPromptVersion && (AgreementPrompt(a) == None || AgreementPrompt(a) == Some("")))
              || (f == PromptMismatch && AgreementPrompt(a).Some? && AgreementPrompt(a).value != ""
                  && AgreementPrompt(a).value != shipped)
    ensures ProvenanceReports(a, c, shipped)(f) <==>
              PartialReports(a, c, shipped, 2)(f)
              || (f == NoComparePromptVersion && ComparePrompt(c) == None)
              || (f == ComparePromptMismatch && ComparePrompt(c).Some? && ComparePrompt(c).value != shipped)
  {
    hide AgreementModel;
    hide CompareModel;
    hide AgreementPrompt;
    hide ComparePrompt;
  }

  method CheckProvenance(start: Log, a: Option<AgreementDoc>, c: Option<CompareDoc>, shipped: string) returns (log: Log)
    ensures Adds(start, log, ProvenanceReports(a, c, shipped), NoCharges())
  {
    hide *;
    log := start;
    ghost var none, model, prompt, all :=
      NoReports(), PartialReports(a, c, shipped, 1), PartialReports(a, c, shipped, 2), ProvenanceReports(a, c, shipped);
    AddsNothing(start);
    NoReportsAre();
    ProvenanceIsStructural();
    var agreementModel, compareModel := AgreementModel(a), CompareModel(c);
    forall f ensures model(f) <==> f == ModelMismatch && agreementModel != compareModel {
      ProvenanceParts(a, c, shipped, f);
    }
    if agreementModel != compareModel {
      AddsStructural(start, log, none, model, NoCharges(), ModelMismatch);
      log := Structural(log, ModelMismatch);
    } else {
      AddsSame(start, log, none, model, NoCharges(), NoCharges());
    }
    var version, compared := AgreementPrompt(a), ComparePrompt(c);
    forall f
      ensures prompt(f) <==> model(f) || (f == NoPromptVersion && (version == None || version == Some("")))
                             || (f == PromptMismatch && version.Some? && version.value != ""
                                 && version.value != shipped)
    {
      ProvenanceParts(a, c, shipped, f);
    }
    if version == None || version.value == "" {
      AddsStructural(start, log, model, prompt, NoCharges(), NoPromptVersion);
      log := Structural(log, NoPromptVersion);
    } else if version.value != shipped {
      AddsStructural(start, log, model, prompt, NoCharges(), PromptMismatch);
      log := Structural(log, PromptMismatch);
    } else {
      AddsSame(start, log, model, prompt, NoCharges(), NoCharges());
    }
    forall f
      ensures all(f) <==> prompt(f) || (f == NoComparePromptVersion && compared == None)
                          || (f == ComparePromptMismatch && compared.Some? && compared.value != shipped)
    {
      ProvenanceParts(a, c, shipped, f);
    }
    if compared == None {
      AddsStructural(start, log, prompt, all, NoCharges(), NoComparePromptVersion);
      log := Structural(log, NoComparePromptVersion);
    } else if compared.value != shipped {
      AddsStructural(start, log, prompt, all, NoCharges(), ComparePromptMismatch);
      log := Structural(log, ComparePromptMismatch);
    } else {
      AddsSame(start, log, prompt, all, NoCharges(), NoCharges());
    }
  }

  lemma NoReportsAre()
    ensures forall f :: !NoReports()(f)
  {
  }

  lemma ProvenanceIsStructural()
    ensures IsStructural(ModelMismatch) && IsStructural(NoPromptVersion) && IsStructural(PromptMismatch)
    ensures IsStructural(NoComparePromptVersion) && IsStructural(ComparePromptMismatch)
  {
  }

  // ----- The status -----

  /** `excluded` holds the failures for which a dimension is excluded from gating. */
  datatype Status = Status(
    validated: bool,
    failures: seq<Failure>,
    perDimension: map<Dim, bool>,
    excluded: map<Dim, seq<Failure>>,
    hardKappas: map<Dim, real>,
    hardAc1: map<Dim, real>)

  /** `validated_gating_dimensions` */
  function Gating(s: Status): set<Dim> { set d | d in s.perDimension && s.perDimension[d] }

  /** Reporting dereferences the clean layer and the gated arm: present but malformed ones raise. */
  predicate ReportRaises(agreement: Artifact<AgreementDoc>, compare: Artifact<CompareDoc>) {
    || (agreement.Document? && agreement.value.clean.WrongType?)
    || (compare.Document?
        && (compare.value.arms.WrongType? || (compare.value.arms.Is? && compare.value.arms.value.WrongType?)))
  }

  /** The error that escapes the gate, if any: a malformed container that is dereferenced, or
      an off-scale score met before any other unreadable cell. */
  function Escapes(agreement: Artifact<AgreementDoc>, compare: Artifact<CompareDoc>): Option<Error> {
    if agreement.Unreadable? || compare.Unreadable? then
      if ReportRaises(agreement, compare) then Some(AttributeError) else None
    else if compare.Document? && compare.value.arms.WrongType? then Some(AttributeError)
    else if agreement.Document? && agreement.value.hardLows.WrongType? then Some(AttributeError)
    else if OffScaleHard(ToOption(compare)) then Some(ValueError)
    else if ReportRaises(agreement, compare) then Some(AttributeError)
    else None
  }

  function LowsOf(a: Option<AgreementDoc>): Field<map<Dim, real>> { if a.Some? then a.value.hardLows else Missing }

  /** `_status` with its dimension scope. */
  function StatusOf(log: Log, kappas: map<Dim, real>, ac1: map<Dim, real>): Status {
    Status(log.failures == [], log.failures, map d | d in KNOWN :: log.charged[d] == [], log.charged, kappas, ac1)
  }

  /** What is reported when an artifact cannot be read: no dimension has any scope. */
  function UnreadableStatus(agreement: Artifact<AgreementDoc>, compare: Artifact<CompareDoc>): Status {
    Status(false,
           (if agreement.Unreadable? then [MissingAgreement] else [])
           + (if compare.Unreadable? then [MissingCompare] else []),
           map d | d in KNOWN :: false, map d | d in KNOWN :: [NoEvidence], map[], map[])
  }

  /** The status says exactly what the evidence gives rise to. */
  ghost predicate StatusIs(agreement: Artifact<AgreementDoc>, compare: Artifact<CompareDoc>, shipped: string,
                           s: Status) {
    && s.perDimension.Keys == KNOWN && s.excluded.Keys == KNOWN
    && (s.validated <==> s.failures == [])
    && (forall f :: f in s.failures <==> Reported(agreement, compare, shipped, f))
    && (forall d | Known(d) :: s.perDimension[d] <==> s.excluded[d] == [])
    && (forall d, f | Known(d) :: f in s.excluded[d] <==> Blamed(agreement, compare, shipped, d, f))
    && (if agreement.Unreadable? || compare.Unreadable? then s.hardKappas == map[] && s.hardAc1 == map[]
        else HardComputed(ToOption(compare), LowsOf(ToOption(agreement)), s.hardKappas, s.hardAc1))
  }

  /** ... and so claims validity exactly when the gate holds, and lists a dimension exactly when
      that dimension's own gate holds. */
  lemma StatusMeans(agreement: Artifact<AgreementDoc>, compare: Artifact<CompareDoc>, shipped: string, s: Status)
    requires StatusIs(agreement, compare, shipped, s)
    ensures s.validated <==> GateHolds(agreement, compare, shipped)
    ensures forall d | Known(d) :: d in Gating(s) <==> DimensionHolds(agreement, compare, shipped, d)
  {
    hide KNOWN;
    hide HardComputed;
    hide Reported;
    hide Blamed;
    hide GateHolds;
    hide DimensionHolds;
    assert s.failures != [] ==> s.failures[0] in s.failures;
    ReportMeansGate(agreement, compare, shipped);
    forall d | Known(d) ensures d in Gating(s) <==> DimensionHolds(agreement, compare, shipped, d) {
      assert s.excluded[d] != [] ==> s.excluded[d][0] in s.excluded[d];
      BlameMeansDimension(agreement, compare, shipped, d);
    }
  }

  lemma UnreadableIs(agreement: Artifact<AgreementDoc>, compare: Artifact<CompareDoc>, shipped: string)
    requires agreement.Unreadable? || compare.Unreadable?
    ensures StatusIs(agreement, compare, shipped, UnreadableStatus(agreement, compare))
  {
    hide KNOWN;
  }

  /** The validation claim derived from the artifacts: it raises exactly on the escaping errors, and
      otherwise reports exactly the failures, exclusions, kappas and AC1 values of the evidence. */
  method JudgeValidationStatus(agreement: Artifact<AgreementDoc>, compare: Artifact<CompareDoc>, shipped: string)
    returns (r: Result<Status>)
    ensures match Escapes(agreement, compare)
      case Some(e) => r == Err(e)
      case None => r.Ok? && StatusIs(agreement, compare, shipped, r.value)
                   && (r.value.validated <==> GateHolds(agreement, compare, shipped))
                   && forall d | Known(d) :: d in Gating(r.value) <==> DimensionHolds(agreement, compare, shipped, d)
  {
    EscapesIs(agreement, compare);
    hide *;
    if agreement.Unreadable? || compare.Unreadable? {
      if ReportRaises(agreement, compare) { return Err(AttributeError); }
      UnreadableIs(agreement, compare, shipped);
      StatusMeans(agreement, compare, shipped, UnreadableStatus(agreement, compare));
      return Ok(UnreadableStatus(agreement, compare));
    }
    var a, c := ToOption(agreement), ToOption(compare);
    ReadParts(agreement, compare);
    var clean := CheckClean(EMPTY_LOG, CleanOf(a));
    if compare.Document? && compare.value.arms.WrongType? { return Err(AttributeError); }
    if agreement.Document? && agreement.value.hardLows.WrongType? { return Err(AttributeError); }
    var hard := CheckHard(clean, c, LowsOf(a));
    if hard.Err? { return Err(hard.error); }
    var log := CheckProvenance(hard.value.log, a, c, shipped);
    Gathered(agreement, compare, shipped, clean, hard.value, log);
    if log.structural != [] { log := ChargedEverywhere(log, log.structural); }
    if ReportRaises(agreement, compare) { return Err(AttributeError); }
    StatusMeans(agreement, compare, shipped, StatusOf(log, hard.value.kappas, hard.value.ac1));
    return Ok(StatusOf(log, hard.value.kappas, hard.value.ac1));
  }

  lemma ReadParts(agreement: Artifact<AgreementDoc>, compare: Artifact<CompareDoc>)
    ensures agreement.Document? ==> ToOption(agreement) == Some(agreement.value)
    ensures compare.Document? ==> ToOption(compare) == Some(compare.value)
  {
  }

  lemma EscapesIs(agreement: Artifact<AgreementDoc>, compare: Artifact<CompareDoc>)
    ensures Escapes(agreement, compare) ==
      if agreement.Unreadable? || compare.Unreadable? then
        if ReportRaises(agreement, compare) then Some(AttributeError) else None
      else if compare.Document? && compare.value.arms.WrongType? then Some(AttributeError)
      else if agreement.Document? && agreement.value.hardLows.WrongType? then Some(AttributeError)
      else if OffScaleHard(ToOption(compare)) then Some(ValueError)
      else if ReportRaises(agreement, compare) then Some(AttributeError)
      else None
  {
  }

  /** The log of all three checks, with structural failures charged to every dimension, is the status. */
  lemma Gathered(agreement: Artifact<AgreementDoc>, compare: Artifact<CompareDoc>, shipped: string, clean: Log,
                 run: HardRun, log: Log)
    requires !agreement.Unreadable? && !compare.Unreadable?
    requires var a, c := ToOption(agreement), ToOption(compare);
      && Adds(EMPTY_LOG, clean, CleanReports(CleanOf(a)), CleanCharges(CleanOf(a)))
      && Adds(clean, run.log, HardReports(c), HardCharges(c))
      && Adds(run.log, log, ProvenanceReports(a, c, shipped), NoCharges())
      && HardComputed(c, LowsOf(a), run.kappas, run.ac1)
    ensures var all := if log.structural != [] then ChargedEverywhere(log, log.structural) else log;
      StatusIs(agreement, compare, shipped, StatusOf(all, run.kappas, run.ac1))
  {
    hide *;
    var a, c := ToOption(agreement), ToOption(compare);
    var all: Log := if log.structural != [] then ChargedEverywhere(log, log.structural) else log;
    KnownIs();
    forall f
      ensures f in all.failures <==> Reported(agreement, compare, shipped, f)
      ensures f in log.structural <==> IsStructural(f) && Reported(agreement, compare, shipped, f)
    {
      GatheredFailure(agreement, compare, shipped, clean, run.log, log, f);
      ChargedEverywhereRest(log, log.structural);
    }
    forall d, f | Known(d) ensures f in all.charged[d] <==> Blamed(agreement, compare, shipped, d, f) {
      GatheredCharge(agreement, compare, shipped, clean, run.log, log, d, f);
      ChargedEverywhereAt(log, log.structural, d);
      BlamedIs(agreement, compare, shipped, d, f);
    }
    StatusFrom(agreement, compare, shipped, all, run);
  }

  lemma KnownIs()
    ensures forall d :: Known(d) <==> d in KNOWN
  {
  }

  lemma StatusFrom(agreement: Artifact<AgreementDoc>, compare: Artifact<CompareDoc>, shipped: string, all: Log,
                   run: HardRun)
    requires !agreement.Unreadable? && !compare.Unreadable?
    requires forall f :: f in all.failures <==> Reported(agreement, compare, shipped, f)
    requires forall d, f | Known(d) :: f in all.charged[d] <==> Blamed(agreement, compare, shipped, d, f)
    requires HardComputed(ToOption(compare), LowsOf(ToOption(agreement)), run.kappas, run.ac1)
    ensures StatusIs(agreement, compare, shipped, StatusOf(all, run.kappas, run.ac1))
  {
    hide HardComputed;
    hide Reported;
    hide Blamed;
    hide KNOWN;
  }

  lemma GatheredFailure(agreement: Artifact<AgreementDoc>, compare: Artifact<CompareDoc>, shipped: string, clean: Log,
                        hard: Log, log: Log, f: Failure)
    requires !agreement.Unreadable? && !compare.Unreadable?
    requires var a, c := ToOption(agreement), ToOption(compare);
      && Adds(EMPTY_LOG, clean, CleanReports(CleanOf(a)), CleanCharges(CleanOf(a)))
      && Adds(clean, hard, HardReports(c), HardCharges(c))
      && Adds(hard, log, ProvenanceReports(a, c, shipped), NoCharges())
    ensures f in log.failures <==> Reported(agreement, compare, shipped, f)
    ensures f in log.structural <==> IsStructural(f) && Reported(agreement, compare, shipped, f)
  {
    ReportedIs(agreement, compare, shipped, f);
    hide Reported;
    hide CleanReported;
    hide HardReported;
    hide ProvenanceReported;
    hide IsStructural;
    hide Known;
  }

  lemma GatheredCharge(agreement: Artifact<AgreementDoc>, compare: Artifact<CompareDoc>, shipped: string, clean: Log,
                       hard: Log, log: Log, d: Dim, f: Failure)
    requires !agreement.Unreadable? && !compare.Unreadable? && Known(d)
    requires var a, c := ToOption(agreement), ToOption(compare);
      && Adds(EMPTY_LOG, clean, CleanReports(CleanOf(a)), CleanCharges(CleanOf(a)))
      && Adds(clean, hard, HardReports(c), HardCharges(c))
      && Adds(hard, log, ProvenanceReports(a, c, shipped), NoCharges())
    ensures f in log.charged[d] <==>
                CleanBlames(CleanOf(ToOption(agreement)), d, f) || HardBlames(ToOption(compare), d, f)
  {
    hide CleanBlames;
    hide HardBlames;
    hide CleanReported;
    hide HardReported;
    hide ProvenanceReported;
    hide IsStructural;
    hide KNOWN;
  }

  // ----- Scoped gating -----

  /** The required dimensions when every one of them is known and validated. */
  function AssertGating(required: set<Dim>, status: Status): Result<set<Dim>> {
    if required == {} || required - KNOWN != {} || required - Gating(status) != {} then Err(UnvalidatedDimension)
    else Ok(required)
  }

  /** A scoped claim is accepted exactly when each requested dimension's own gate holds, and
      the full set exactly when the whole gate does. */
  lemma ScopedGating(agreement: Artifact<AgreementDoc>, compare: Artifact<CompareDoc>, shipped: string,
                     status: Status, required: set<Dim>)
    requires status.perDimension.Keys == KNOWN
    requires forall d | Known(d) :: d in Gating(status) <==> DimensionHolds(agreement, compare, shipped, d)
    ensures AssertGating(required, status).Ok? <==>
            required != {} && forall d | d in required :: Known(d) && DimensionHolds(agreement, compare, shipped, d)
    ensures AssertGating(KNOWN, status).Ok? <==> GateHolds(agreement, compare, shipped)
  {
    GateIsAllDimensions(agreement, compare, shipped);
    hide GateHolds;
    hide DimensionHolds;
    assert Safety in KNOWN;
    forall d | d in Gating(status) ensures Known(d) {}
    if AssertGating(required, status).Ok? {
      forall d | d in required ensures Known(d) && d in Gating(status) {
        assert d !in required - KNOWN && d !in required - Gating(status);
      }
    }
    if AssertGating(KNOWN, status).Ok? {
      forall d | Known(d) ensures DimensionHolds(agreement, compare, shipped, d) {
        assert d !in KNOWN - Gating(status);
      }
    }
  }

  // ----- An escaping artifact -----

  function AllScores(score: int): map<Dim, Cell> { map d | d in KNOWN :: Num(score) }

  /** One case whose judge scored grounding 4: present, readable, and not a failure but an error. */
  lemma OffScaleEscapes()
    ensures exists agreement: Artifact<AgreementDoc>, compare: Artifact<CompareDoc> ::
                Escapes(agreement, compare) == Some(ValueError)
  {
    var c := RawCase(1, AllScores(3), AllScores(3)[Grounding := Num(4)]);
    var agreement := Document(AgreementDoc(Missing, Missing, None, None));
    var compare := Document(CompareDoc(Is(5), Is(Is(Is([c]))), None, None));
    assert CellAt([c], Grounding, 0) == Some(Num(4)) && CellAt([c], Grounding, 1) == Some(Num(3));
    assert OffScaleAt([c], Grounding, 0);
    assert OffScaleIn([c], Grounding) && OffScaleFirst([c]);
    assert Escapes(agreement, compare) == Some(ValueError);
  }
}
