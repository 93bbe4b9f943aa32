/** Which failures the validation gate reports on which evidence, and what their absence means
    (eval/judge_validation.py). */
module ValidationReport {
  import opened Rubric
  import opened Sequencing
  import opened Validation

  datatype Failure =
    | MissingAgreement | MissingCompare | NoEvidence
    | NoCleanLayer | NoCleanKappas | CleanKappaLow(dim: Dim) | CleanFalseNegatives | NoCleanCases
    | TooFewRuns | NoHardCases | MalformedCases | HardKappaLow(dim: Dim, kappa: real) | HardFalseNegatives(ids: seq<Id>)
    | ModelMismatch | NoPromptVersion | PromptMismatch | NoComparePromptVersion | ComparePromptMismatch

  /** Failures of the evidence as a whole, charged to every dimension. */
  predicate IsStructural(f: Failure) {
    || f.NoCleanLayer? || f.NoCleanKappas? || f.NoCleanCases? || f.TooFewRuns? || f.NoHardCases? || f.MalformedCases?
    || f.ModelMismatch? || f.NoPromptVersion? || f.PromptMismatch? || f.NoComparePromptVersion?
        || f.ComparePromptMismatch?
  }

  /** Failures of the numbers computed from the hard cases. */
  predicate IsNumber(f: Failure) { f.HardKappaLow? || f.HardFalseNegatives? }

  // ----- The clean layer -----

  predicate CleanReported(clean: Field<CleanLayer>, f: Failure) {
    match f
    case NoCleanLayer => !clean.Is?
    case NoCleanKappas => clean.Is? && !clean.value.kappas.Is?
    case CleanKappaLow(d) => clean.Is? && Known(d) && !CleanKappaOk(clean.value, d)
    case CleanFalseNegatives => clean.Is? && !CleanPasses(clean.value)
    case NoCleanCases => clean.Is? && !(clean.value.n.Is? && clean.value.n.value > 0)
    case _ => false
  }

  predicate CleanBlames(clean: Field<CleanLayer>, d: Dim, f: Failure) {
    CleanReported(clean, f) && (f == CleanKappaLow(d) || f == CleanFalseNegatives)
  }

  // ----- The hard cases -----

  /** The dimension and all before it in rubric order can be read. */
  predicate ReadInTurn(cases: seq<RawCase>, d: Dim) {
    Known(d) && forall e | e in KNOWN && Turn(e) <= Turn(d) :: Readable(cases, e)
  }

  /** A score off the scale is met in some dimension, and no earlier dimension is unreadable. */
  predicate OffScaleFirst(cases: seq<RawCase>) {
    exists d | d in KNOWN :: OffScaleIn(cases, d)
  }

  predicate OffScaleIn(cases: seq<RawCase>, d: Dim) {
    OffScale(cases, d) && forall e | e in KNOWN && Turn(e) < Turn(d) :: Readable(cases, e)
  }

  ghost predicate LowKappa(cases: seq<RawCase>, d: Dim, kappa: real) {
    cases != [] && Readable(cases, d) && kappa == HardKappa(cases, d) && kappa < GATE_KAPPA
  }

  /** The ids of the outputs passed though the reference fails them, and of those charged to a dimension. */
  function FalseNegativeIds(cases: seq<RawCase>): seq<Id> { IdsOf(Select(cases, FalselyPassed)) }

  function ChargedIds(cases: seq<RawCase>, d: Dim): seq<Id> { IdsOf(Select(cases, ChargedTo(d))) }

  ghost predicate CasesReported(cases: seq<RawCase>, f: Failure) {
    match f
    case HardKappaLow(d, kappa) => ReadInTurn(cases, d) && LowKappa(cases, d, kappa)
    case MalformedCases => !AllGood(cases)
    case HardFalseNegatives(ids) => AllGood(cases) && ids != [] && ids == FalseNegativeIds(cases)
    case _ => false
  }

  ghost predicate CasesBlame(cases: seq<RawCase>, d: Dim, f: Failure) {
    match f
    case HardKappaLow(e, kappa) => e == d && ReadInTurn(cases, d) && LowKappa(cases, d, kappa)
    case HardFalseNegatives(ids) => AllGood(cases) && ids != [] && ids == ChargedIds(cases, d)
    case _ => false
  }

  function HardCases(compare: Option<CompareDoc>): Option<seq<RawCase>> {
    if compare.Some? then CasesOf(compare.value) else None
  }

  predicate OffScaleHard(compare: Option<CompareDoc>) {
    HardCases(compare).Some? && OffScaleFirst(HardCases(compare).value)
  }

  predicate EnoughRuns(compare: Option<CompareDoc>) {
    compare.Some? && compare.value.runs.Is? && compare.value.runs.value >= MIN_RUNS_PER_CASE
  }

  ghost predicate HardReported(compare: Option<CompareDoc>, f: Failure) {
    match f
    case TooFewRuns => !EnoughRuns(compare)
    case NoHardCases => HardCases(compare) == None
    case _ => HardCases(compare).Some? && CasesReported(HardCases(compare).value, f)
  }

  ghost predicate HardBlames(compare: Option<CompareDoc>, d: Dim, f: Failure) {
    HardCases(compare).Some? && CasesBlame(HardCases(compare).value, d, f)
  }

  // ----- Provenance -----

  function AgreementModel(a: Option<AgreementDoc>): Option<string> { if a.Some? then a.value.modelId else None }

  function CompareModel(c: Option<CompareDoc>): Option<string> { if c.Some? then c.value.modelId else None }

  function AgreementPrompt(a: Option<AgreementDoc>): Option<string> { if a.Some? then a.value.promptVersion else None }

  function ComparePrompt(c: Option<CompareDoc>): Option<string> { if c.Some? then c.value.promptVersion else None }

  predicate ProvenanceReported(a: Option<AgreementDoc>, c: Option<CompareDoc>, shipped: string, f: Failure) {
    match f
    case ModelMismatch => AgreementModel(a) != CompareModel(c)
    case NoPromptVersion => AgreementPrompt(a) == None || AgreementPrompt(a) == Some("")
    case PromptMismatch =>
        AgreementPrompt(a).Some? && AgreementPrompt(a).value != "" && AgreementPrompt(a).value != shipped
    case NoComparePromptVersion => ComparePrompt(c) == None
    case ComparePromptMismatch => ComparePrompt(c).Some? && ComparePrompt(c).value != shipped
    case _ => false
  }

  // ----- The whole report -----

  function ToOption<T>(a: Artifact<T>): Option<T> { if a.Document? then Some(a.value) else None }

  function CleanOf(a: Option<AgreementDoc>): Field<CleanLayer> { if a.Some? then a.value.clean else Missing }

  /** The failures reported. When an artifact cannot be read nothing else is looked at. */
  ghost predicate Reported(agreement: Artifact<AgreementDoc>, compare: Artifact<CompareDoc>, shipped: string,
                           f: Failure) {
    var a, c := ToOption(agreement), ToOption(compare);
    if agreement.Unreadable? || compare.Unreadable? then
      (agreement.Unreadable? && f == MissingAgreement) || (compare.Unreadable? && f == MissingCompare)
    else
      CleanReported(CleanOf(a), f) || HardReported(c, f) || ProvenanceReported(a, c, shipped, f)
  }

  /** The failures for which a dimension is excluded. */
  ghost predicate Blamed(agreement: Artifact<AgreementDoc>, compare: Artifact<CompareDoc>, shipped: string, d: Dim,
                         f: Failure) {
    var a, c := ToOption(agreement), ToOption(compare);
    if agreement.Unreadable? || compare.Unreadable? then f == NoEvidence
    else
      || CleanBlames(CleanOf(a), d, f) || HardBlames(c, d, f)
      || (IsStructural(f) && Reported(agreement, compare, shipped, f))
  }

  // ----- No failure means that the gate holds -----

  lemma SelectedNone<A(!new)>(xs: seq<A>, p: A -> bool)
    ensures Select(xs, p) == [] <==> forall x | x in xs :: !p(x)
  {
    var out := Select(xs, p);
    assert out != [] ==> out[0] in out;
  }

  lemma FalseNegativeIdsAppend(cases: seq<RawCase>, c: RawCase)
    ensures FalseNegativeIds(cases + [c]) == FalseNegativeIds(cases) + if FalselyPassed(c) then [c.id] else []
  {
    hide FalselyPassed;
    assert (cases + [c])[..|cases|] == cases;
  }

  lemma NoFalseNegatives(cases: seq<RawCase>)
    requires AllGood(cases)
    ensures FalseNegativeIds(cases) == [] <==> forall i | 0 <= i < |cases| :: !FalseNegative(cases[i])
  {
    SelectedNone(cases, FalselyPassed);
    hide FalseNegative;
    hide GoodCase;
    if forall i | 0 <= i < |cases| :: !FalseNegative(cases[i]) {
      forall c | c in cases ensures !FalselyPassed(c) { }
    }
    forall i | 0 <= i < |cases| ensures cases[i] in cases && (FalselyPassed(cases[i]) <==> FalseNegative(cases[i])) { }
  }

  lemma NothingCharged(cases: seq<RawCase>, d: Dim)
    requires AllGood(cases) && Known(d)
    ensures ChargedIds(cases, d) == [] <==> forall i | 0 <= i < |cases| :: !Charges(cases[i], d)
  {
    SelectedNone(cases, ChargedTo(d));
    hide Charges;
    hide GoodCase;
    forall i | 0 <= i < |cases| ensures cases[i] in cases && (ChargedTo(d)(cases[i]) <==> Charges(cases[i], d)) { }
    if forall i | 0 <= i < |cases| :: !Charges(cases[i], d) {
      forall c | c in cases ensures !ChargedTo(d)(c) { }
    }
  }

  /** On good cases every dimension is read, and a low kappa is one below the floor. */
  lemma GoodCasesRead(cases: seq<RawCase>, d: Dim)
    requires cases != [] && AllGood(cases) && Known(d)
    ensures ReadInTurn(cases, d)
    ensures HardKappaOk(cases, d) <==> forall kappa :: !LowKappa(cases, d, kappa)
  {
    forall e | e in KNOWN ensures Readable(cases, e) { GoodEverywhere(cases, e); }
    hide HardKappa;
    assert LowKappa(cases, d, HardKappa(cases, d)) <==> !HardKappaOk(cases, d);
  }

  lemma GoodLow(cases: seq<RawCase>, d: Dim, kappa: real)
    requires cases != [] && AllGood(cases) && Known(d)
    ensures Readable(cases, d)
    ensures CasesReported(cases, HardKappaLow(d, kappa)) <==> kappa == HardKappa(cases, d) && kappa < GATE_KAPPA
  {
    GoodCasesRead(cases, d);
    GoodEverywhere(cases, d);
    hide AllGood;
    hide GoodAt;
    hide ReadInTurn;
    hide HardKappa;
  }

  predicate ProvenanceSound(a: Option<AgreementDoc>, c: Option<CompareDoc>, shipped: string) {
    && AgreementModel(a) == CompareModel(c) && AgreementPrompt(a) == Some(shipped) && shipped != ""
        && ComparePrompt(c) == Some(shipped)
  }

  lemma CleanSoundMeans(clean: Field<CleanLayer>)
    ensures CleanSound(clean) <==> forall f | IsStructural(f) :: !CleanReported(clean, f)
  {
    hide CleanKappaOk;
    hide CleanPasses;
    if forall f | IsStructural(f) :: !CleanReported(clean, f) {
      assert !CleanReported(clean, NoCleanLayer) && !CleanReported(clean, NoCleanKappas)
             && !CleanReported(clean, NoCleanCases);
    }
  }

  predicate HardSound(c: Option<CompareDoc>) { EnoughRuns(c) && HardCases(c).Some? && AllGood(HardCases(c).value) }

  lemma HardSoundMeans(c: Option<CompareDoc>)
    ensures HardSound(c) <==> forall f | IsStructural(f) :: !HardReported(c, f)
  {
    hide AllGood;
    hide EnoughRuns;
    hide HardCases;
    if forall f | IsStructural(f) :: !HardReported(c, f) {
      assert !HardReported(c, TooFewRuns) && !HardReported(c, NoHardCases) && !HardReported(c, MalformedCases);
    }
  }

  lemma ProvenanceSoundMeans(a: Option<AgreementDoc>, c: Option<CompareDoc>, shipped: string)
    ensures ProvenanceSound(a, c, shipped) <==> forall f | IsStructural(f) :: !ProvenanceReported(a, c, shipped, f)
  {
    hide AgreementModel;
    hide CompareModel;
    hide AgreementPrompt;
    hide ComparePrompt;
    if forall f | IsStructural(f) :: !ProvenanceReported(a, c, shipped, f) {
      assert !ProvenanceReported(a, c, shipped, ModelMismatch);
      assert !ProvenanceReported(a, c, shipped, NoPromptVersion) && !ProvenanceReported(a, c, shipped, PromptMismatch);
      assert !ProvenanceReported(a, c, shipped, NoComparePromptVersion)
             && !ProvenanceReported(a, c, shipped, ComparePromptMismatch);
    }
  }

  /** The parts of the evidence that structural failures are about. */
  lemma SoundMeans(a: Option<AgreementDoc>, c: Option<CompareDoc>, shipped: string)
    ensures (forall f | IsStructural(f) ::
                !CleanReported(CleanOf(a), f) && !HardReported(c, f) && !ProvenanceReported(a, c, shipped, f))
       <==> a.Some? && c.Some? && Sound(a.value, c.value, shipped)
  {
    CleanSoundMeans(CleanOf(a));
    HardSoundMeans(c);
    ProvenanceSoundMeans(a, c, shipped);
    SoundIs(a, c, shipped);
    hide *;
  }

  lemma SoundIs(a: Option<AgreementDoc>, c: Option<CompareDoc>, shipped: string)
    ensures CleanSound(CleanOf(a)) && HardSound(c) && ProvenanceSound(a, c, shipped) <==>
                a.Some? && c.Some? && Sound(a.value, c.value, shipped)
  {
    hide AllGood;
    hide CasesOf;
  }

  lemma ReportedIs(agreement: Artifact<AgreementDoc>, compare: Artifact<CompareDoc>, shipped: string, f: Failure)
    requires !agreement.Unreadable? && !compare.Unreadable?
    ensures var a, c := ToOption(agreement), ToOption(compare);
      Reported(agreement, compare, shipped, f) <==>
        CleanReported(CleanOf(a), f) || HardReported(c, f) || ProvenanceReported(a, c, shipped, f)
  {
    hide CleanReported;
    hide HardReported;
    hide ProvenanceReported;
  }

  lemma BlamedIs(agreement: Artifact<AgreementDoc>, compare: Artifact<CompareDoc>, shipped: string, d: Dim, f: Failure)
    requires !agreement.Unreadable? && !compare.Unreadable?
    ensures var a, c := ToOption(agreement), ToOption(compare);
      Blamed(agreement, compare, shipped, d, f) <==>
        CleanBlames(CleanOf(a), d, f) || HardBlames(c, d, f)
            || (IsStructural(f) && Reported(agreement, compare, shipped, f))
  {
    hide CleanBlames;
    hide HardBlames;
    hide Reported;
    hide IsStructural;
  }

  /** On sound evidence only numbers can be reported. */
  lemma SoundReports(a: AgreementDoc, c: CompareDoc, shipped: string, f: Failure)
    requires Sound(a, c, shipped)
    ensures Reported(Document(a), Document(c), shipped, f) <==>
              (f == CleanFalseNegatives && !CleanPasses(a.clean.value))
              || (f.CleanKappaLow? && Known(f.dim) && !CleanKappaOk(a.clean.value, f.dim))
              || (IsNumber(f) && CasesReported(CasesOf(c).value, f))
  {
    SoundMeans(Some(a), Some(c), shipped);
    ReportedIs(Document(a), Document(c), shipped, f);
    assert IsStructural(f) ==> !Reported(Document(a), Document(c), shipped, f);
    hide CasesReported;
    hide AllGood;
    hide CasesOf;
    hide CleanPasses;
    hide CleanKappaOk;
    hide Reported;
    hide Known;
  }

  lemma SoundBlames(a: AgreementDoc, c: CompareDoc, shipped: string, d: Dim, f: Failure)
    requires Sound(a, c, shipped) && Known(d)
    ensures Blamed(Document(a), Document(c), shipped, d, f) <==>
              (f == CleanFalseNegatives && !CleanPasses(a.clean.value))
              || (f == CleanKappaLow(d) && !CleanKappaOk(a.clean.value, d))
              || CasesBlame(CasesOf(c).value, d, f)
  {
    SoundReports(a, c, shipped, f);
    BlamedIs(Document(a), Document(c), shipped, d, f);
    hide CasesReported;
    hide CasesBlame;
    hide AllGood;
    hide CasesOf;
    hide CleanPasses;
    hide CleanKappaOk;
    hide Reported;
    hide Blamed;
    hide Known;
  }

  lemma KappaReports(cases: seq<RawCase>, d: Dim)
    requires cases != [] && AllGood(cases) && Known(d)
    ensures (forall kappa :: !CasesReported(cases, HardKappaLow(d, kappa))) <==> HardKappaOk(cases, d)
    ensures (forall kappa :: !CasesBlame(cases, d, HardKappaLow(d, kappa))) <==> HardKappaOk(cases, d)
  {
    hide AllGood;
    hide LowKappa;
    hide HardKappaOk;
    hide ReadInTurn;
    GoodCasesRead(cases, d);
    assert forall kappa :: CasesReported(cases, HardKappaLow(d, kappa)) <==> LowKappa(cases, d, kappa);
    assert forall kappa :: CasesBlame(cases, d, HardKappaLow(d, kappa)) <==> LowKappa(cases, d, kappa);
  }

  lemma FalseNegativeReports(cases: seq<RawCase>)
    requires AllGood(cases)
    ensures (forall ids :: !CasesReported(cases, HardFalseNegatives(ids))) <==>
                forall i | 0 <= i < |cases| :: !FalseNegative(cases[i])
  {
    hide AllGood;
    hide FalseNegative;
    hide FalseNegativeIds;
    NoFalseNegatives(cases);
    assert CasesReported(cases, HardFalseNegatives(FalseNegativeIds(cases))) <==> FalseNegativeIds(cases) != [];
  }

  lemma ChargeReports(cases: seq<RawCase>, d: Dim)
    requires AllGood(cases) && Known(d)
    ensures (forall ids :: !CasesBlame(cases, d, HardFalseNegatives(ids))) <==>
                forall i | 0 <= i < |cases| :: !Charges(cases[i], d)
  {
    hide AllGood;
    hide Charges;
    hide ChargedIds;
    NothingCharged(cases, d);
    assert CasesBlame(cases, d, HardFalseNegatives(ChargedIds(cases, d))) <==> ChargedIds(cases, d) != [];
  }

  lemma SoundParts(a: AgreementDoc, c: CompareDoc, shipped: string)
    requires Sound(a, c, shipped)
    ensures CasesOf(c).Some? && CasesOf(c).value != [] && AllGood(CasesOf(c).value) && a.clean.Is?
    ensures GateHolds(Document(a), Document(c), shipped) <==>
              && CleanPasses(a.clean.value)
              && (forall d | d in KNOWN :: CleanKappaOk(a.clean.value, d) && HardKappaOk(CasesOf(c).value, d))
              && forall i | 0 <= i < |CasesOf(c).value| :: !FalseNegative(CasesOf(c).value[i])
    ensures forall d | Known(d) :: DimensionHolds(Document(a), Document(c), shipped, d) <==>
              && CleanPasses(a.clean.value)
              && CleanKappaOk(a.clean.value, d) && HardKappaOk(CasesOf(c).value, d)
              && forall i | 0 <= i < |CasesOf(c).value| :: !Charges(CasesOf(c).value[i], d)
  {
    hide AllGood;
    hide CleanPasses;
    hide CleanKappaOk;
    hide HardKappaOk;
    hide FalseNegative;
    hide Charges;
  }

  lemma SoundGate(a: AgreementDoc, c: CompareDoc, shipped: string)
    requires Sound(a, c, shipped)
    ensures GateHolds(Document(a), Document(c), shipped) <==>
                forall f :: !Reported(Document(a), Document(c), shipped, f)
  {
    hide *;
    SoundParts(a, c, shipped);
    var cases := CasesOf(c).value;
    forall f: Failure
      ensures Reported(Document(a), Document(c), shipped, f) <==>
                (f == CleanFalseNegatives && !CleanPasses(a.clean.value))
                || (f.CleanKappaLow? && Known(f.dim) && !CleanKappaOk(a.clean.value, f.dim))
                || (IsNumber(f) && CasesReported(cases, f))
    {
      SoundReports(a, c, shipped, f);
    }
    QuietReports(a.clean.value, cases);
    ReportSplit(a, c, shipped, cases);
  }

  /** The reported failures of sound evidence, kind by kind. */
  lemma ReportSplit(a: AgreementDoc, c: CompareDoc, shipped: string, cases: seq<RawCase>)
    requires a.clean.Is?
    requires forall f: Failure ::
      Reported(Document(a), Document(c), shipped, f) <==>
        (f == CleanFalseNegatives && !CleanPasses(a.clean.value))
        || (f.CleanKappaLow? && Known(f.dim) && !CleanKappaOk(a.clean.value, f.dim))
        || (IsNumber(f) && CasesReported(cases, f))
    ensures (forall f :: !Reported(Document(a), Document(c), shipped, f)) <==>
              CleanPasses(a.clean.value) && (forall d | Known(d) :: CleanKappaOk(a.clean.value, d))
              && forall f | IsNumber(f) :: !CasesReported(cases, f)
  {
    hide *;
    if forall f :: !Reported(Document(a), Document(c), shipped, f) {
      assert !Reported(Document(a), Document(c), shipped, CleanFalseNegatives);
      forall d | Known(d) ensures CleanKappaOk(a.clean.value, d) {
        assert !Reported(Document(a), Document(c), shipped, CleanKappaLow(d));
      }
      forall f | IsNumber(f) ensures !CasesReported(cases, f) {
        assert !Reported(Document(a), Document(c), shipped, f);
      }
    }
  }

  lemma QuietReports(clean: CleanLayer, cases: seq<RawCase>)
    requires cases != [] && AllGood(cases)
    ensures (forall f | IsNumber(f) :: !CasesReported(cases, f)) <==>
            (forall d | d in KNOWN :: HardKappaOk(cases, d)) && forall i | 0 <= i < |cases| :: !FalseNegative(cases[i])
    ensures forall d :: Known(d) <==> d in KNOWN
  {
    NumberKinds(cases);
    hide *;
    FalseNegativeReports(cases);
    forall d | d in KNOWN
      ensures (forall kappa :: !CasesReported(cases, HardKappaLow(d, kappa))) <==> HardKappaOk(cases, d)
    {
      KappaReports(cases, d);
    }
    if forall f | IsNumber(f) :: !CasesReported(cases, f) {
      forall d | d in KNOWN ensures HardKappaOk(cases, d) {
        forall kappa ensures !CasesReported(cases, HardKappaLow(d, kappa)) { assert IsNumber(HardKappaLow(d, kappa)); }
      }
      forall ids ensures !CasesReported(cases, HardFalseNegatives(ids)) { assert IsNumber(HardFalseNegatives(ids)); }
    }
  }

  lemma NumberKinds(cases: seq<RawCase>)
    ensures forall d :: Known(d) <==> d in KNOWN
    ensures forall f :: IsNumber(f) <==> f.HardKappaLow? || f.HardFalseNegatives?
    ensures forall d, kappa :: CasesReported(cases, HardKappaLow(d, kappa)) ==> d in KNOWN
  {
    hide KNOWN;
  }

  lemma SoundDimension(a: AgreementDoc, c: CompareDoc, shipped: string, d: Dim)
    requires Sound(a, c, shipped) && Known(d)
    ensures DimensionHolds(Document(a), Document(c), shipped, d) <==>
                forall f :: !Blamed(Document(a), Document(c), shipped, d, f)
  {
    hide *;
    SoundParts(a, c, shipped);
    var cases := CasesOf(c).value;
    forall f: Failure
      ensures Blamed(Document(a), Document(c), shipped, d, f) <==>
                (f == CleanFalseNegatives && !CleanPasses(a.clean.value))
                || (f == CleanKappaLow(d) && !CleanKappaOk(a.clean.value, d))
                || CasesBlame(cases, d, f)
    {
      SoundBlames(a, c, shipped, d, f);
    }
    KappaReports(cases, d);
    ChargeReports(cases, d);
    BlameKinds(cases, d);
    if forall f :: !Blamed(Document(a), Document(c), shipped, d, f) {
      assert !Blamed(Document(a), Document(c), shipped, d, CleanFalseNegatives);
      assert !Blamed(Document(a), Document(c), shipped, d, CleanKappaLow(d));
      forall kappa ensures !CasesBlame(cases, d, HardKappaLow(d, kappa)) {
        assert !Blamed(Document(a), Document(c), shipped, d, HardKappaLow(d, kappa));
      }
      forall ids ensures !CasesBlame(cases, d, HardFalseNegatives(ids)) {
        assert !Blamed(Document(a), Document(c), shipped, d, HardFalseNegatives(ids));
      }
    }
  }

  lemma BlameKinds(cases: seq<RawCase>, d: Dim)
    ensures forall f :: CasesBlame(cases, d, f) ==> f.HardFalseNegatives? || (f.HardKappaLow? && f.dim == d)
  {
  }

  /** The gate holds exactly when no failure is reported. */
  lemma ReportMeansGate(agreement: Artifact<AgreementDoc>, compare: Artifact<CompareDoc>, shipped: string)
    ensures GateHolds(agreement, compare, shipped) <==> forall f :: !Reported(agreement, compare, shipped, f)
  {
    UnsoundGate(agreement, compare, shipped);
    if agreement.Unreadable? || compare.Unreadable? {
      assert Reported(agreement, compare, shipped, if agreement.Unreadable? then MissingAgreement else MissingCompare);
    } else if agreement.Document? && compare.Document? && Sound(agreement.value, compare.value, shipped) {
      SoundGate(agreement.value, compare.value, shipped);
    } else {
      var f := StructuralFailure(agreement, compare, shipped);
    }
  }

  /** A dimension holds exactly when no failure is charged to it. */
  lemma BlameMeansDimension(agreement: Artifact<AgreementDoc>, compare: Artifact<CompareDoc>, shipped: string, d: Dim)
    requires Known(d)
    ensures DimensionHolds(agreement, compare, shipped, d) <==> forall f :: !Blamed(agreement, compare, shipped, d, f)
  {
    UnsoundGate(agreement, compare, shipped);
    if agreement.Unreadable? || compare.Unreadable? {
      assert Blamed(agreement, compare, shipped, d, NoEvidence);
    } else if agreement.Document? && compare.Document? && Sound(agreement.value, compare.value, shipped) {
      SoundDimension(agreement.value, compare.value, shipped, d);
    } else {
      var f := StructuralFailure(agreement, compare, shipped);
      BlamedIs(agreement, compare, shipped, d, f);
    }
  }

  lemma UnsoundGate(agreement: Artifact<AgreementDoc>, compare: Artifact<CompareDoc>, shipped: string)
    ensures !(agreement.Document? && compare.Document? && Sound(agreement.value, compare.value, shipped)) ==>
              !GateHolds(agreement, compare, shipped)
                  && forall d | Known(d) :: !DimensionHolds(agreement, compare, shipped, d)
  {
    hide Sound;
  }

  /** Unsound evidence has a structural failure to report. */
  lemma StructuralFailure(agreement: Artifact<AgreementDoc>, compare: Artifact<CompareDoc>, shipped: string)
    returns (f: Failure)
    requires !agreement.Unreadable? && !compare.Unreadable?
    requires !(agreement.Document? && compare.Document? && Sound(agreement.value, compare.value, shipped))
    ensures IsStructural(f) && Reported(agreement, compare, shipped, f)
  {
    var a, c := ToOption(agreement), ToOption(compare);
    SoundMeans(a, c, shipped);
    hide Reported;
    hide IsStructural;
    hide CleanReported;
    hide HardReported;
    hide ProvenanceReported;
    hide Sound;
    f :| IsStructural(f)
        && (CleanReported(CleanOf(a), f) || HardReported(c, f) || ProvenanceReported(a, c, shipped, f));
    ReportedIs(agreement, compare, shipped, f);
  }
}
