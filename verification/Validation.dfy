/** The judge-validation gate derived from the two evidence artifacts (eval/judge_validation.py). */
module Validation {
  import opened Rubric
  import opened Rounding
  import opened Sequencing
  import opened Agreement

  const GATE_KAPPA: real := 0.6
  const MIN_RUNS_PER_CASE: int := 3

  // ----- The artifacts as they are read -----

  /** What `d.get(key)` finds. */
  datatype Field<+T> = Missing | WrongType | Is(value: T)

  datatype Artifact<+T> = Unreadable | NotADictionary | Document(value: T)

  datatype CleanLayer = CleanLayer(kappas: Field<map<Dim, real>>, falseNegatives: Field<real>, n: Field<int>)

  datatype AgreementDoc = AgreementDoc(
    clean: Field<CleanLayer>,
    hardLows: Field<map<Dim, real>>,    // lower interval ends of the diagnostic hard layer
    modelId: Option<string>,
    promptVersion: Option<string>)

  /** A score cell as stored: a number, or a value that cannot be looked up at all. */
  datatype Cell = Num(score: int) | Unhashable

  datatype RawCase =
    | Shapeless(id: Id, missingKey: bool)   // the subscripts `["agg"]["vector"]`, `["reference"]` fail
    | RawCase(id: Id, reference: map<Dim, Cell>, vector: map<Dim, Cell>)

  datatype CompareDoc = CompareDoc(
    runs: Field<int>,
    arms: Field<Field<Field<seq<RawCase>>>>,   // arms, the gated arm within, its cases
    modelId: Option<string>,
    promptVersion: Option<string>)

  // ----- Reading the hard cases -----

  function ShapeError(c: RawCase): Error
    requires c.Shapeless?
  {
    if c.missingKey then KeyError else TypeError
  }

  function VectorCell(d: Dim): RawCase -> Result<Cell> {
    (c: RawCase) =>
      if c.Shapeless? then Err(ShapeError(c)) else if d in c.vector then Ok(c.vector[d]) else Err(KeyError)
  }

  function ReferenceCell(d: Dim): RawCase -> Result<Cell> {
    (c: RawCase) =>
      if c.Shapeless? then Err(ShapeError(c)) else if d in c.reference then Ok(c.reference[d]) else Err(KeyError)
  }

  function DecodeCell(c: Cell): Result<int> {
    match c
    case Unhashable => Err(TypeError)
    case Num(s) => if OnScale(s) then Ok(s) else Err(ValueError)
  }

  /** The judge column followed by the reference column, decoded in the order kappa looks
      the scores up. */
  function Columns(cases: seq<RawCase>, d: Dim): (r: Result<seq<int>>)
    ensures r.Ok? ==> |r.value| == 2 * |cases|
  {
    match MapAll(cases, VectorCell(d))
    case Err(e) => Err(e)
    case Ok(judge) =>
      match MapAll(cases, ReferenceCell(d))
      case Err(e) => Err(e)
      case Ok(reference) => MapAll(judge + reference, DecodeCell)
  }

  predicate GoodCell(cells: map<Dim, Cell>, d: Dim) { d in cells && cells[d].Num? && OnScale(cells[d].score) }

  predicate GoodAt(c: RawCase, d: Dim) { c.RawCase? && GoodCell(c.vector, d) && GoodCell(c.reference, d) }

  /** A case with a scaled score for every dimension on both sides. */
  predicate GoodCase(c: RawCase) { c.RawCase? && forall d | d in KNOWN :: GoodAt(c, d) }

  predicate AllGood(cases: seq<RawCase>) { forall i | 0 <= i < |cases| :: GoodCase(cases[i]) }

  function Judged(c: RawCase): Vector
    requires GoodCase(c)
  {
    map d | d in KNOWN :: (assert GoodAt(c, d); c.vector[d].score)
  }

  function Reference(c: RawCase): Vector
    requires GoodCase(c)
  {
    map d | d in KNOWN :: (assert GoodAt(c, d); c.reference[d].score)
  }

  /** Judge scores of one dimension over the cases. */
  function JudgeColumn(cases: seq<RawCase>, d: Dim): (col: seq<int>)
    requires forall i | 0 <= i < |cases| :: GoodAt(cases[i], d)
    ensures |col| == |cases|
  {
    seq(|cases|, i requires 0 <= i < |cases| => assert GoodAt(cases[i], d); cases[i].vector[d].score)
  }

  function ReferenceColumn(cases: seq<RawCase>, d: Dim): (col: seq<int>)
    requires forall i | 0 <= i < |cases| :: GoodAt(cases[i], d)
    ensures |col| == |cases|
  {
    seq(|cases|, i requires 0 <= i < |cases| => assert GoodAt(cases[i], d); cases[i].reference[d].score)
  }

  /** The two columns decode exactly when every case has good cells, and then to the scores. */
  lemma ColumnsDecode(cases: seq<RawCase>, d: Dim)
    ensures Columns(cases, d).Ok? <==> forall i | 0 <= i < |cases| :: GoodAt(cases[i], d)
    ensures Columns(cases, d).Ok? ==> Columns(cases, d).value == JudgeColumn(cases, d) + ReferenceColumn(cases, d)
  {
    hide GoodAt;
    hide DecodeCell;
    if Columns(cases, d).Ok? { DecodedColumns(cases, d); }
    if forall i | 0 <= i < |cases| :: GoodAt(cases[i], d) { DecodableColumns(cases, d); }
  }

  lemma CellsGood(c: RawCase, d: Dim)
    ensures GoodAt(c, d) <==>
              VectorCell(d)(c).Ok? && ReferenceCell(d)(c).Ok?
              && DecodeCell(VectorCell(d)(c).value).Ok? && DecodeCell(ReferenceCell(d)(c).value).Ok?
    ensures GoodAt(c, d) ==>
              DecodeCell(VectorCell(d)(c).value) == Ok(c.vector[d].score)
              && DecodeCell(ReferenceCell(d)(c).value) == Ok(c.reference[d].score)
  {
  }

  lemma DecodedColumns(cases: seq<RawCase>, d: Dim)
    requires Columns(cases, d).Ok?
    ensures forall i | 0 <= i < |cases| :: GoodAt(cases[i], d)
    ensures Columns(cases, d).value == JudgeColumn(cases, d) + ReferenceColumn(cases, d)
  {
    var n, decoded := |cases|, Columns(cases, d).value;
    var judge, reference := MapAll(cases, VectorCell(d)).value, MapAll(cases, ReferenceCell(d)).value;
    hide GoodAt;
    hide DecodeCell;
    forall i | 0 <= i < n
      ensures GoodAt(cases[i], d)
      ensures decoded[i] == cases[i].vector[d].score && decoded[n + i] == cases[i].reference[d].score
    {
      CellsGood(cases[i], d);
      assert VectorCell(d)(cases[i]) == Ok(judge[i]) && ReferenceCell(d)(cases[i]) == Ok(reference[i]);
      assert (judge + reference)[i] == judge[i] && (judge + reference)[n + i] == reference[i];
      assert DecodeCell(judge[i]) == Ok(decoded[i]) && DecodeCell(reference[i]) == Ok(decoded[n + i]);
    }
    assert decoded == JudgeColumn(cases, d) + ReferenceColumn(cases, d);
  }

  lemma DecodableColumns(cases: seq<RawCase>, d: Dim)
    requires forall i | 0 <= i < |cases| :: GoodAt(cases[i], d)
    ensures Columns(cases, d).Ok?
  {
    hide GoodAt;
    hide DecodeCell;
    forall c | c in cases ensures VectorCell(d)(c).Ok? && ReferenceCell(d)(c).Ok? { CellsGood(c, d); }
    MapAllDefined(cases, VectorCell(d));
    MapAllDefined(cases, ReferenceCell(d));
    var n := |cases|;
    var judge, reference := MapAll(cases, VectorCell(d)).value, MapAll(cases, ReferenceCell(d)).value;
    forall k | 0 <= k < |judge + reference| ensures DecodeCell((judge + reference)[k]).Ok? {
      var i := if k < n then k else k - n;
      CellsGood(cases[i], d);
      assert VectorCell(d)(cases[i]) == Ok(judge[i]) && ReferenceCell(d)(cases[i]) == Ok(reference[i]);
    }
    MapAllDefined(judge + reference, DecodeCell);
  }

  /** Cell k of a dimension in the order kappa looks the scores up: the judge's, then the reference's. */
  function CellAt(cases: seq<RawCase>, d: Dim, k: nat): Option<Cell>
    requires k < 2 * |cases|
  {
    var c := cases[if k < |cases| then k else k - |cases|];
    if c.Shapeless? then None
    else
      var cells := if k < |cases| then c.vector else c.reference;
      if d in cells then Some(cells[d]) else None
  }

  predicate Scaled(c: Option<Cell>) { c.Some? && c.value.Num? && OnScale(c.value.score) }

  /** Every case has scaled scores for the dimension on both sides. */
  predicate Readable(cases: seq<RawCase>, d: Dim) { forall i | 0 <= i < |cases| :: GoodAt(cases[i], d) }

  /** All cells of the dimension are there, and the first one that is not a scaled score is a number
      off the scale. */
  predicate OffScale(cases: seq<RawCase>, d: Dim) {
    && (forall k: nat | k < 2 * |cases| :: CellAt(cases, d, k).Some?)
    && exists k: nat | k < 2 * |cases| :: OffScaleAt(cases, d, k)
  }

  predicate OffScaleAt(cases: seq<RawCase>, d: Dim, k: nat)
    requires k < 2 * |cases|
  {
    CellAt(cases, d, k).Some? && CellAt(cases, d, k).value.Num? && !OnScale(CellAt(cases, d, k).value.score)
    && forall m: nat | m < k :: Scaled(CellAt(cases, d, m))
  }

  /** Reading the two columns fails with ValueError exactly on an off-scale number met first. */
  lemma ColumnsOffScale(cases: seq<RawCase>, d: Dim)
    ensures Columns(cases, d) == Err(ValueError) <==> OffScale(cases, d)
  {
    var n := |cases|;
    var judge, reference := MapAll(cases, VectorCell(d)), MapAll(cases, ReferenceCell(d));
    MapAllFirstError(cases, VectorCell(d), ValueError);
    MapAllFirstError(cases, ReferenceCell(d), ValueError);
    MapAllDefined(cases, VectorCell(d));
    MapAllDefined(cases, ReferenceCell(d));
    CellsFound(cases, d);
    hide OffScaleAt;
    hide DecodeCell;
    if judge.Ok? && reference.Ok? {
      var cells := judge.value + reference.value;
      MapAllFirstError(cells, DecodeCell, ValueError);
      forall k: nat | k < 2 * n ensures CellAt(cases, d, k) == Some(cells[k]) {
        var i := if k < n then k else k - n;
        assert VectorCell(d)(cases[i]) == Ok(judge.value[i]) && ReferenceCell(d)(cases[i]) == Ok(reference.value[i]);
      }
      OffScaleDecodes(cases, d, cells);
    }
  }

  lemma CellsFound(cases: seq<RawCase>, d: Dim)
    ensures (forall k: nat | k < 2 * |cases| :: CellAt(cases, d, k).Some?) <==>
            forall i | 0 <= i < |cases| :: VectorCell(d)(cases[i]).Ok? && ReferenceCell(d)(cases[i]).Ok?
  {
    if forall k: nat | k < 2 * |cases| :: CellAt(cases, d, k).Some? {
      forall i | 0 <= i < |cases| ensures VectorCell(d)(cases[i]).Ok? && ReferenceCell(d)(cases[i]).Ok? {
        assert CellAt(cases, d, i).Some? && CellAt(cases, d, |cases| + i).Some?;
      }
    }
  }

  lemma OffScaleDecodes(cases: seq<RawCase>, d: Dim, cells: seq<Cell>)
    requires |cells| == 2 * |cases| && forall k: nat | k < 2 * |cases| :: CellAt(cases, d, k) == Some(cells[k])
    ensures (exists k: nat | k < 2 * |cases| :: OffScaleAt(cases, d, k)) <==>
            exists k | 0 <= k < |cells| ::
              DecodeCell(cells[k]) == Err(ValueError) && forall m | 0 <= m < k :: DecodeCell(cells[m]).Ok?
  {
    forall k: nat | k < |cells| ensures Scaled(CellAt(cases, d, k)) <==> DecodeCell(cells[k]).Ok? { }
    hide CellAt;
    forall k: nat | k < |cells|
      ensures OffScaleAt(cases, d, k) <==>
                DecodeCell(cells[k]) == Err(ValueError) && forall m | 0 <= m < k :: DecodeCell(cells[m]).Ok?
    {
    }
  }

  lemma ColumnsScorable(cases: seq<RawCase>, d: Dim)
    requires cases != [] && forall i | 0 <= i < |cases| :: GoodAt(cases[i], d)
    ensures Scorable(JudgeColumn(cases, d), ReferenceColumn(cases, d), ORDINAL_SCORES)
  {
    var all := JudgeColumn(cases, d) + ReferenceColumn(cases, d);
    forall s | s in all ensures s in ORDINAL_SCORES {
      var k :| 0 <= k < |all| && all[k] == s;
      var i := if k < |cases| then k else k - |cases|;
      assert GoodAt(cases[i], d);
      assert s == ORDINAL_SCORES[s - 1];
    }
  }

  /** The recomputed, rounded hard kappa of a dimension. */
  ghost function HardKappa(cases: seq<RawCase>, d: Dim): real
    requires cases != [] && forall i | 0 <= i < |cases| :: GoodAt(cases[i], d)
  {
    ColumnsScorable(cases, d);
    Round3(Kappa(JudgeColumn(cases, d), ReferenceColumn(cases, d), ORDINAL_SCORES))
  }

  /** The aggregate passes an output the reference fails. */
  predicate FalseNegative(c: RawCase)
    requires GoodCase(c)
  {
    OverallPass(Judged(c)) && !OverallPass(Reference(c))
  }

  /** A false negative is charged to the dimensions that are passed though the reference fails them. */
  predicate Charges(c: RawCase, d: Dim)
    requires GoodCase(c) && Known(d)
  {
    FalseNegative(c) && Judged(c)[d] >= PASSING_SCORE && Reference(c)[d] < PASSING_SCORE
  }

  predicate FalselyPassed(c: RawCase) { GoodCase(c) && FalseNegative(c) }

  function ChargedTo(d: Dim): RawCase -> bool { (c: RawCase) => Known(d) && GoodCase(c) && Charges(c, d) }

  function IdsOf(cases: seq<RawCase>): (ids: seq<Id>)
    ensures |ids| == |cases| && forall i | 0 <= i < |ids| :: ids[i] == cases[i].id
  {
    seq(|cases|, i requires 0 <= i < |cases| => cases[i].id)
  }

  /** Every false negative is charged to some dimension. */
  lemma FalseNegativeCharged(c: RawCase)
    requires GoodCase(c) && FalseNegative(c)
    ensures exists d | Known(d) :: Charges(c, d)
  {
    var d :| d in KNOWN && Reference(c)[d] < PASSING_SCORE;
    assert Known(d) && Charges(c, d);
  }

  lemma UnchargedIsSafe(c: RawCase)
    requires GoodCase(c) && forall d | Known(d) :: !Charges(c, d)
    ensures !FalseNegative(c)
  {
    if FalseNegative(c) { FalseNegativeCharged(c); }
  }

  // ----- What the gate demands -----

  predicate CleanSound(clean: Field<CleanLayer>) {
    clean.Is? && clean.value.kappas.Is? && clean.value.n.Is? && clean.value.n.value > 0
  }

  predicate CleanKappaOk(clean: CleanLayer, d: Dim) {
    clean.kappas.Is? ==> d in clean.kappas.value && clean.kappas.value[d] >= GATE_KAPPA
  }

  predicate CleanPasses(clean: CleanLayer) { clean.falseNegatives == Is(0.0) }

  function CasesOf(c: CompareDoc): Option<seq<RawCase>> {
    if c.arms.Is? && c.arms.value.Is? && c.arms.value.value.Is? && c.arms.value.value.value != []
    then Some(c.arms.value.value.value) else None
  }

  /** Everything that is not a number of a particular dimension. */
  predicate Sound(a: AgreementDoc, c: CompareDoc, shipped: string) {
    && CleanSound(a.clean)
    && c.runs.Is? && c.runs.value >= MIN_RUNS_PER_CASE
    && CasesOf(c).Some? && AllGood(CasesOf(c).value)
    && a.modelId == c.modelId
    && a.promptVersion == Some(shipped) && shipped != "" && c.promptVersion == Some(shipped)
  }

  ghost predicate HardKappaOk(cases: seq<RawCase>, d: Dim)
    requires cases != [] && AllGood(cases) && Known(d)
  {
    GoodEverywhere(cases, d);
    HardKappa(cases, d) >= GATE_KAPPA
  }

  lemma GoodEverywhere(cases: seq<RawCase>, d: Dim)
    requires AllGood(cases) && Known(d)
    ensures forall i | 0 <= i < |cases| :: GoodAt(cases[i], d)
  {
    forall i | 0 <= i < |cases| ensures GoodAt(cases[i], d) { assert GoodCase(cases[i]); }
  }

  /** The whole gate: sound evidence, every clean and hard kappa at the floor, and no output
      passed that the reference fails. */
  ghost predicate GateHolds(agreement: Artifact<AgreementDoc>, compare: Artifact<CompareDoc>, shipped: string) {
    && agreement.Document? && compare.Document?
    && var a, c := agreement.value, compare.value;
    && Sound(a, c, shipped)
    && CleanPasses(a.clean.value)
    && (forall d | d in KNOWN :: CleanKappaOk(a.clean.value, d) && HardKappaOk(CasesOf(c).value, d))
    && forall i | 0 <= i < |CasesOf(c).value| :: !FalseNegative(CasesOf(c).value[i])
  }

  /** The gate of a single dimension. */
  ghost predicate DimensionHolds(agreement: Artifact<AgreementDoc>, compare: Artifact<CompareDoc>, shipped: string,
                                 d: Dim)
    requires Known(d)
  {
    && agreement.Document? && compare.Document?
    && var a, c := agreement.value, compare.value;
    && Sound(a, c, shipped)
    && CleanPasses(a.clean.value)
    && CleanKappaOk(a.clean.value, d) && HardKappaOk(CasesOf(c).value, d)
    && forall i | 0 <= i < |CasesOf(c).value| :: !Charges(CasesOf(c).value[i], d)
  }

  /** The gate holds exactly when it holds for all six dimensions. */
  lemma GateIsAllDimensions(agreement: Artifact<AgreementDoc>, compare: Artifact<CompareDoc>, shipped: string)
    ensures GateHolds(agreement, compare, shipped)
       <==> forall d | Known(d) :: DimensionHolds(agreement, compare, shipped, d)
  {
    hide HardKappaOk;
    hide CleanKappaOk;
    hide CleanPasses;
    hide GoodCase;
    if forall d | Known(d) :: DimensionHolds(agreement, compare, shipped, d) {
      assert Known(Safety) && DimensionHolds(agreement, compare, shipped, Safety);
      var cases := CasesOf(compare.value).value;
      hide FalseNegative;
      hide Charges;
      forall i | 0 <= i < |cases| ensures !FalseNegative(cases[i]) {
        forall d | Known(d) ensures !Charges(cases[i], d) { assert DimensionHolds(agreement, compare, shipped, d); }
        UnchargedIsSafe(cases[i]);
      }
      forall d | d in KNOWN
        ensures CleanKappaOk(agreement.value.clean.value, d) && HardKappaOk(cases, d)
      {
        assert DimensionHolds(agreement, compare, shipped, d);
      }
    }
    if GateHolds(agreement, compare, shipped) {
      forall d | Known(d) ensures DimensionHolds(agreement, compare, shipped, d) {}
    }
  }

  /** The recomputed hard kappa meets the floor exactly from 0.5995 on. */
  lemma EffectiveThreshold(cases: seq<RawCase>, d: Dim)
    requires cases != [] && AllGood(cases) && Known(d)
    ensures Scorable(JudgeColumnOf(cases, d), ReferenceColumnOf(cases, d), ORDINAL_SCORES)
    ensures HardKappaOk(cases, d) <==>
                Kappa(JudgeColumnOf(cases, d), ReferenceColumnOf(cases, d), ORDINAL_SCORES) >= 0.5995
  {
    hide Kappa;
    GoodEverywhere(cases, d);
    ColumnsScorable(cases, d);
    GateThreshold(Kappa(JudgeColumn(cases, d), ReferenceColumn(cases, d), ORDINAL_SCORES));
  }

  function JudgeColumnOf(cases: seq<RawCase>, d: Dim): seq<int>
    requires AllGood(cases) && Known(d)
  {
    GoodEverywhere(cases, d);
    JudgeColumn(cases, d)
  }

  function ReferenceColumnOf(cases: seq<RawCase>, d: Dim): seq<int>
    requires AllGood(cases) && Known(d)
  {
    GoodEverywhere(cases, d);
    ReferenceColumn(cases, d)
  }
}
