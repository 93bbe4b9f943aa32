/** Code-owned quality decisions merged over the judge's scores (eval/deterministic_quality.py). */
module Deterministic {
  import opened Rubric
  import opened NRun

  datatype Disposition = ProposeCustomerAction | InternalReview | OtherDisposition

  /** What the scorers read off a request and an output. Lexicon, factor-name and name tests
      over the text are the booleans they evaluate to. */
  datatype Item = Item(
    disposition: Disposition,
    draftPresent: bool,            // the customer draft is non-empty
    factorsInText: seq<bool>,      // per priority factor: named in the assessed text
    accountNamed: bool,            // account or contact name in the assessed text
    factorsInReason: seq<bool>,    // per priority factor: named in the reason
    expectedScore: Option<int>,
    scoreMentions: seq<int>,       // scores stated in the reason
    contradictsPriority: bool,
    priorityTheme: bool,
    citedIds: seq<Id>,
    sourceIds: set<Id>,
    officialese: bool,
    urgencyCaps: bool,
    deferral: bool,
    concreteAsk: bool)

  datatype Reason = ScoreMismatch | ContradictoryPriority | FullPriority | PartialPriority | NoPriority
                  | NamesFactor | NamesAccount | Boilerplate
                  | CorrectInternalReview | OfficialeseRegister | AlarmRegister | PassiveDeferral

  datatype Decision = Decision(dim: Dim, score: int, reason: Reason)

  predicate Grounded(item: Item) {
    item.citedIds != [] && item.sourceIds != {} && forall c | c in item.citedIds :: c in item.sourceIds
  }

  function ScoreAccountSpecificity(item: Item): Decision {
    if true in item.factorsInText then Decision(Account, 3, NamesFactor)
    else if item.accountNamed then Decision(Account, 2, NamesAccount)
    else Decision(Account, 1, Boilerplate)
  }

  function ScorePriorityFidelity(item: Item): Decision {
    var hasScore := item.expectedScore.Some? && item.expectedScore.value in item.scoreMentions;
    if item.scoreMentions != [] && item.expectedScore.Some? && item.expectedScore.value !in item.scoreMentions then
      Decision(Priority, 1, ScoreMismatch)
    else if item.contradictsPriority then Decision(Priority, 1, ContradictoryPriority)
    else if item.factorsInReason != [] && hasScore && false !in item.factorsInReason then
      Decision(Priority, 3, FullPriority)
    else if hasScore || true in item.factorsInReason || item.priorityTheme then Decision(Priority, 2, PartialPriority)
    else Decision(Priority, 1, NoPriority)
  }

  function CodeScores(item: Item): seq<Decision> { [ScorePriorityFidelity(item), ScoreAccountSpecificity(item)] }

  function Assignments(item: Item): seq<Decision> {
    if item.disposition == InternalReview && !item.draftPresent && Grounded(item) then
      [Decision(OnTask, 3, CorrectInternalReview)]
    else []
  }

  function ToneFloor(item: Item): seq<Decision> {
    if item.officialese then [Decision(Tone, 1, OfficialeseRegister)]
    else if item.urgencyCaps then [Decision(Tone, 1, AlarmRegister)]
    else []
  }

  function OnTaskFloor(item: Item): seq<Decision> {
    if item.disposition == ProposeCustomerAction && item.draftPresent && item.deferral && !item.concreteAsk then
      [Decision(OnTask, 1, PassiveDeferral)]
    else []
  }

  function Floors(item: Item): seq<Decision> { ToneFloor(item) + OnTaskFloor(item) }

  /** A mutable pair of dictionaries as `apply_deterministic` receives it. */
  datatype Sheet = Sheet(scores: Scores, reasons: Option<map<Dim, Reason>>)

  function Put(s: Sheet, d: Decision): Sheet {
    Sheet(s.scores[d.dim := d.score], if s.reasons.Some? then Some(s.reasons.value[d.dim := d.reason]) else None)
  }

  function Overwrite(s: Sheet, ds: seq<Decision>): Sheet {
    if ds == [] then s else Put(Overwrite(s, ds[..|ds| - 1]), ds[|ds| - 1])
  }

  /** A floor applies only when it lowers the score; a missing score counts as higher. */
  function Floor(s: Sheet, d: Decision): Sheet {
    if d.dim !in s.scores || s.scores[d.dim] > d.score then Put(s, d) else s
  }

  function Lower(s: Sheet, ds: seq<Decision>): Sheet {
    if ds == [] then s else Floor(Lower(s, ds[..|ds| - 1]), ds[|ds| - 1])
  }

  function Applied(item: Item, s: Sheet): Sheet {
    Lower(Overwrite(Overwrite(s, CodeScores(item)), Assignments(item)), Floors(item))
  }

  class ScoreSheet {
    var scores: Scores
    var reasons: Option<map<Dim, Reason>>

    ghost function Contents(): Sheet
      reads this
    {
      Sheet(scores, reasons)
    }

    method Set(d: Decision)
      modifies this
      ensures Contents() == Put(old(Contents()), d)
    {
      scores := scores[d.dim := d.score];
      if reasons.Some? { reasons := Some(reasons.value[d.dim := d.reason]); }
    }

    /** Merge code decisions over the scores: full overrides, then structural assignments,
        then floors. */
    method ApplyDeterministic(item: Item)
      modifies this
      ensures Contents() == Applied(item, old(Contents()))
    {
      ghost var start := Contents();
      for i := 0 to |CodeScores(item)|
        invariant Contents() == Overwrite(start, CodeScores(item)[..i])
      {
        assert CodeScores(item)[..i + 1][..i] == CodeScores(item)[..i];
        Set(CodeScores(item)[i]);
      }
      assert CodeScores(item)[..|CodeScores(item)|] == CodeScores(item);
      ghost var scored := Contents();
      for i := 0 to |Assignments(item)|
        invariant Contents() == Overwrite(scored, Assignments(item)[..i])
      {
        assert Assignments(item)[..i + 1][..i] == Assignments(item)[..i];
        Set(Assignments(item)[i]);
      }
      assert Assignments(item)[..|Assignments(item)|] == Assignments(item);
      ghost var settled := Contents();
      for i := 0 to |Floors(item)|
        invariant Contents() == Lower(settled, Floors(item)[..i])
      {
        assert Floors(item)[..i + 1][..i] == Floors(item)[..i];
        var d := Floors(item)[i];
        if d.dim !in scores || scores[d.dim] > d.score { Set(d); }
      }
      assert Floors(item)[..|Floors(item)|] == Floors(item);
    }
  }

  // ----- What the merge does, dimension by dimension -----

  /** The score code decides outright for a dimension. */
  function Override(item: Item, d: Dim): Option<int> {
    if d == Priority then Some(ScorePriorityFidelity(item).score)
    else if d == Account then Some(ScoreAccountSpecificity(item).score)
    else if d == OnTask && Assignments(item) != [] then Some(3)
    else None
  }

  predicate Floored(item: Item, d: Dim) {
    (d == Tone && ToneFloor(item) != []) || (d == OnTask && OnTaskFloor(item) != [])
  }

  lemma LowerTwo(s: Sheet, a: Decision, b: Decision)
    ensures Lower(s, []) == s && Lower(s, [a]) == Floor(s, a) && Lower(s, [a, b]) == Floor(Floor(s, a), b)
  {
    assert [a, b][..1] == [a] && [a][..0] == [];
  }

  lemma OverwriteTwo(s: Sheet, a: Decision, b: Decision)
    ensures Overwrite(s, []) == s && Overwrite(s, [a]) == Put(s, a) && Overwrite(s, [a, b]) == Put(Put(s, a), b)
  {
    assert [a, b][..1] == [a] && [a][..0] == [];
  }

  lemma AfterScores(item: Item, s: Sheet, d: Dim)
    ensures var out := Overwrite(s, CodeScores(item)).scores;
      && (d in out <==> d in s.scores || d == Priority || d == Account)
      && (d in out ==> out[d] == if d == Priority || d == Account then Override(item, d).value else s.scores[d])
  {
    var p, a := ScorePriorityFidelity(item), ScoreAccountSpecificity(item);
    OverwriteTwo(s, p, a);
    assert p.dim == Priority && a.dim == Account;
    hide ScorePriorityFidelity;
    hide ScoreAccountSpecificity;
    hide Overwrite;
  }

  lemma AfterAssignments(item: Item, s: Sheet, d: Dim)
    ensures var out := Overwrite(s, Assignments(item)).scores;
      && (d in out <==> d in s.scores || (d == OnTask && Assignments(item) != []))
      && (d in out ==> out[d] == if d == OnTask && Assignments(item) != [] then 3 else s.scores[d])
  {
    var t := Decision(OnTask, 3, CorrectInternalReview);
    OverwriteTwo(s, t, t);
    hide Overwrite;
    hide Grounded;
  }

  function Lowered(scores: Scores, d: Dim): int {
    if d in scores && scores[d] < 1 then scores[d] else 1
  }

  lemma {:induction false} LowerConcat(s: Sheet, a: seq<Decision>, b: seq<Decision>)
    ensures Lower(s, a + b) == Lower(Lower(s, a), b)
  {
    if b == [] {
      assert a + b == a;
    } else {
      assert (a + b)[..|a + b| - 1] == a + b[..|b| - 1];
      LowerConcat(s, a, b[..|b| - 1]);
    }
  }

  /** At most one floor, of score 1. */
  lemma AfterOneFloor(s: Sheet, ds: seq<Decision>, floored: Dim, d: Dim)
    requires |ds| <= 1 && forall e | e in ds :: e.dim == floored && e.score == 1
    ensures var out, hit := Lower(s, ds).scores, ds != [] && d == floored;
      (d in out <==> d in s.scores || hit) && (d in out ==> out[d] == if hit then Lowered(s.scores, d) else s.scores[d])
  {
    if ds != [] {
      assert ds == [ds[0]] && ds[0] in ds;
      LowerTwo(s, ds[0], ds[0]);
    }
  }

  lemma AfterFloors(item: Item, s: Sheet, d: Dim)
    ensures var out := Lower(s, Floors(item)).scores;
      && (d in out <==> d in s.scores || Floored(item, d))
      && (d in out ==> out[d] == if Floored(item, d) then Lowered(s.scores, d) else s.scores[d])
  {
    LowerConcat(s, ToneFloor(item), OnTaskFloor(item));
    AfterOneFloor(s, ToneFloor(item), Tone, d);
    AfterOneFloor(Lower(s, ToneFloor(item)), OnTaskFloor(item), OnTask, d);
    assert Floors(item) == ToneFloor(item) + OnTaskFloor(item);
    assert Floored(item, d) <==> (d == Tone && ToneFloor(item) != []) || (d == OnTask && OnTaskFloor(item) != []);
    var middle := Lower(s, ToneFloor(item));
    assert d == OnTask ==> (d in middle.scores <==> d in s.scores) && Lowered(middle.scores, d) == Lowered(s.scores, d);
    hide *;
  }

  /** Overridden dimensions take the code's score, floored ones drop to 1, all others keep
      the judge's. An override and a floor never meet. */
  lemma AppliedAt(item: Item, s: Sheet, d: Dim)
    ensures Override(item, d).Some? ==> !Floored(item, d)
    ensures d in Applied(item, s).scores <==> d in s.scores || Override(item, d).Some? || Floored(item, d)
    ensures d in Applied(item, s).scores ==>
      (Applied(item, s).scores[d] ==
        if Override(item, d).Some? then Override(item, d).value
        else if Floored(item, d) then Lowered(s.scores, d)
        else s.scores[d])
  {
    var scored := Overwrite(s, CodeScores(item));
    var settled := Overwrite(scored, Assignments(item));
    assert OnTaskFloor(item) != [] ==> Assignments(item) == [];
    AfterScores(item, s, d);
    AfterAssignments(item, scored, d);
    AfterFloors(item, settled, d);
    hide Overwrite;
    hide Lower;
    hide ScorePriorityFidelity;
    hide ScoreAccountSpecificity;
    hide Assignments;
    hide OnTaskFloor;
    hide ToneFloor;
    hide Floors;
    hide CodeScores;
  }

  lemma OverrideOnScale(item: Item, d: Dim)
    ensures Override(item, d).Some? ==> Known(d) && OnScale(Override(item, d).value)
    ensures Floored(item, d) ==> Known(d)
  {
  }

  /** A decision is recorded: its score, and its reason where reasons are kept. */
  predicate Holds(s: Sheet, d: Decision) {
    && d.dim in s.scores && s.scores[d.dim] == d.score
    && (s.reasons.Some? ==> d.dim in s.reasons.value && s.reasons.value[d.dim] == d.reason)
  }

  predicate AtMost(s: Sheet, d: Decision) { d.dim in s.scores && s.scores[d.dim] <= d.score }

  lemma PutHeld(s: Sheet, d: Decision)
    requires Holds(s, d)
    ensures Put(s, d) == s
  {
    assert s.scores[d.dim := d.score] == s.scores;
    if s.reasons.Some? { assert s.reasons.value[d.dim := d.reason] == s.reasons.value; }
  }

  lemma {:induction false} OverwriteHeld(s: Sheet, ds: seq<Decision>)
    requires forall d | d in ds :: Holds(s, d)
    ensures Overwrite(s, ds) == s
  {
    if ds != [] {
      OverwriteHeld(s, ds[..|ds| - 1]);
      PutHeld(s, ds[|ds| - 1]);
    }
  }

  lemma {:induction false} LowerHeld(s: Sheet, ds: seq<Decision>)
    requires forall d | d in ds :: AtMost(s, d)
    ensures Lower(s, ds) == s
  {
    if ds != [] {
      assert ds[|ds| - 1] in ds;
      LowerHeld(s, ds[..|ds| - 1]);
    }
  }

  /** Decisions on other dimensions leave a recorded one alone. */
  lemma {:induction false} OthersKeep(s: Sheet, ds: seq<Decision>, d: Decision)
    requires Holds(s, d) && forall e | e in ds :: e.dim != d.dim
    ensures Holds(Overwrite(s, ds), d) && Holds(Lower(s, ds), d)
  {
    if ds != [] { OthersKeep(s, ds[..|ds| - 1], d); }
  }

  predicate DistinctDims(ds: seq<Decision>) { forall i, j | 0 <= i < j < |ds| :: ds[i].dim != ds[j].dim }

  lemma {:induction false} OverwriteHolds(s: Sheet, ds: seq<Decision>, d: Decision)
    requires DistinctDims(ds) && d in ds
    ensures Holds(Overwrite(s, ds), d)
  {
    var init, last := ds[..|ds| - 1], ds[|ds| - 1];
    assert ds == init + [last];
    if d != last { OverwriteHolds(s, init, d); }
  }

  lemma {:induction false} LowerBelow(s: Sheet, ds: seq<Decision>, d: Decision)
    requires DistinctDims(ds) && d in ds
    ensures AtMost(Lower(s, ds), d)
  {
    var init, last := ds[..|ds| - 1], ds[|ds| - 1];
    assert ds == init + [last];
    if d != last { LowerBelow(s, init, d); }
  }

  /** Overrides and assignments decide different dimensions, and no floor touches any of them. */
  lemma Disjoint(item: Item)
    ensures DistinctDims(CodeScores(item)) && DistinctDims(Assignments(item)) && DistinctDims(Floors(item))
    ensures forall d, e | d in CodeScores(item) && e in Assignments(item) :: d.dim != e.dim
    ensures forall d, e | d in CodeScores(item) && e in Floors(item) :: d.dim != e.dim
    ensures forall d, e | d in Assignments(item) && e in Floors(item) :: d.dim != e.dim
  {
    DecisionDims(item);
    var p, a := ScorePriorityFidelity(item), ScoreAccountSpecificity(item);
    assert CodeScores(item) == [p, a];
    assert Floors(item) == ToneFloor(item) + OnTaskFloor(item);
    hide *;
  }

  lemma DecisionDims(item: Item)
    ensures ScorePriorityFidelity(item).dim == Priority && ScoreAccountSpecificity(item).dim == Account
    ensures |Assignments(item)| <= 1 && forall d | d in Assignments(item) :: d.dim == OnTask
    ensures |ToneFloor(item)| <= 1 && forall d | d in ToneFloor(item) :: d.dim == Tone
    ensures |OnTaskFloor(item)| <= 1 && forall d | d in OnTaskFloor(item) :: d.dim == OnTask
    ensures OnTaskFloor(item) == [] || Assignments(item) == []
  {
  }

  /** Merging twice is merging once, in scores and reasons. */
  lemma Idempotent(item: Item, s: Sheet)
    ensures Applied(item, Applied(item, s)) == Applied(item, s)
  {
    var scores, assigns, floors := CodeScores(item), Assignments(item), Floors(item);
    Disjoint(item);
    var scored := Overwrite(s, scores);
    var settled := Overwrite(scored, assigns);
    var once := Lower(settled, floors);
    hide *;
    forall d | d in scores ensures Holds(once, d) {
      OverwriteHolds(s, scores, d);
      OthersKeep(scored, assigns, d);
      OthersKeep(settled, floors, d);
    }
    forall d | d in assigns ensures Holds(once, d) {
      OverwriteHolds(scored, assigns, d);
      OthersKeep(settled, floors, d);
    }
    forall d | d in floors ensures AtMost(once, d) { LowerBelow(settled, floors, d); }
    OverwriteHeld(once, scores);
    OverwriteHeld(once, assigns);
    LowerHeld(once, floors);
    AppliedIs(item, s);
    AppliedIs(item, once);
  }

  lemma AppliedIs(item: Item, s: Sheet)
    ensures Applied(item, s) == Lower(Overwrite(Overwrite(s, CodeScores(item)), Assignments(item)), Floors(item))
  {
  }

  /** Outside the overridden dimensions the merge never raises a score. */
  lemma NeverRaises(item: Item, s: Sheet, d: Dim)
    requires d in s.scores && Override(item, d) == None
    ensures d in Applied(item, s).scores && Applied(item, s).scores[d] <= s.scores[d]
  {
    AppliedAt(item, s, d);
  }

  // ----- The merge and N-run aggregation -----

  lemma MergedVector(item: Item, v: Vector)
    ensures HasAll(Applied(item, Sheet(v, None)).scores)
    ensures Rated(v) ==> Rated(Applied(item, Sheet(v, None)).scores)
    ensures v.Keys == KNOWN ==> Applied(item, Sheet(v, None)).scores.Keys == KNOWN
  {
    hide Applied;
    hide Override;
    hide Floored;
    var out := Applied(item, Sheet(v, None)).scores;
    forall d ensures d in out <==> d in v || Override(item, d).Some? || Floored(item, d) {
      AppliedAt(item, Sheet(v, None), d);
    }
    forall d ensures Override(item, d).Some? || Floored(item, d) ==> Known(d) { OverrideOnScale(item, d); }
    if Rated(v) {
      forall d | d in KNOWN ensures OnScale(out[d]) {
        AppliedAt(item, Sheet(v, None), d);
        OverrideOnScale(item, d);
      }
    }
  }

  /** The vector a run reports after the merge. */
  function Judged(item: Item, v: Vector): Vector {
    MergedVector(item, v);
    Applied(item, Sheet(v, None)).scores
  }

  function JudgedRuns(item: Item, runs: seq<Vector>): (out: seq<Vector>)
    ensures |out| == |runs|
    ensures forall i | 0 <= i < |runs| :: out[i] == Judged(item, runs[i])
  {
    seq(|runs|, i requires 0 <= i < |runs| => Judged(item, runs[i]))
  }

  /** What becomes of a score on the scale. */
  function Decided(item: Item, d: Dim, score: int): int {
    if Override(item, d).Some? then Override(item, d).value else if Floored(item, d) then 1 else score
  }

  lemma JudgedAt(item: Item, v: Vector, d: Dim)
    requires Known(d) && Rated(v)
    ensures Judged(item, v)[d] == Decided(item, d, v[d])
  {
    AppliedAt(item, Sheet(v, None), d);
    hide Applied;
    hide Override;
    hide Floored;
  }

  lemma CombineMember(d: Dim, col: seq<int>)
    requires col != []
    ensures Combine(d, col) in col
  {
  }

  lemma AggregateRated(runs: seq<Vector>)
    requires runs != [] && forall v | v in runs :: Rated(v)
    ensures Rated(AggregateVector(runs))
  {
    hide Combine;
    forall d | d in KNOWN ensures OnScale(AggregateVector(runs)[d]) {
      ColumnOnScale(runs, d);
      CombineMember(d, Column(runs, d));
    }
  }

  lemma CombineConstant(d: Dim, col: seq<int>, c: int)
    requires col != [] && forall s | s in col :: s == c
    ensures Combine(d, col) == c
  {
    assert Combine(d, col) in col;
  }

  lemma JudgedColumn(item: Item, runs: seq<Vector>, d: Dim)
    requires Known(d) && forall v | v in runs :: Rated(v)
    ensures forall i | 0 <= i < |runs| :: Column(JudgedRuns(item, runs), d)[i] == Decided(item, d, Column(runs, d)[i])
  {
    hide Judged;
    hide Decided;
    forall i | 0 <= i < |runs| ensures Judged(item, runs[i])[d] == Decided(item, d, runs[i][d]) {
      assert runs[i] in runs;
      JudgedAt(item, runs[i], d);
    }
  }

  lemma AggregateAt(runs: seq<Vector>, d: Dim)
    requires runs != [] && Known(d)
    ensures AggregateVector(runs)[d] == Combine(d, Column(runs, d)) && AggregateVector(runs).Keys == KNOWN
  {
    hide Combine;
  }

  lemma CombineDecided(item: Item, d: Dim, col: seq<int>, out: seq<int>)
    requires |out| == |col| > 0 && forall i | 0 <= i < |col| :: out[i] == Decided(item, d, col[i])
    ensures Combine(d, out) == Decided(item, d, Combine(d, col))
  {
    hide Combine;
    hide Override;
    hide Floored;
    if Override(item, d).Some? {
      CombineConstant(d, out, Override(item, d).value);
    } else if Floored(item, d) {
      CombineConstant(d, out, 1);
    } else {
      assert out == col;
    }
  }

  lemma CombineJudged(item: Item, runs: seq<Vector>, d: Dim)
    requires runs != [] && Known(d) && forall v | v in runs :: Rated(v)
    ensures Combine(d, Column(JudgedRuns(item, runs), d)) == Judged(item, AggregateVector(runs))[d]
  {
    hide *;
    AggregateAt(runs, d);
    AggregateRated(runs);
    JudgedAt(item, AggregateVector(runs), d);
    JudgedColumn(item, runs, d);
    CombineDecided(item, d, Column(runs, d), Column(JudgedRuns(item, runs), d));
  }

  /** Aggregating merged runs gives the same vector as merging the aggregated vector. */
  lemma MergeCommutes(item: Item, runs: seq<Vector>)
    requires runs != [] && forall v | v in runs :: Rated(v)
    ensures AggregateVector(JudgedRuns(item, runs)) == Judged(item, AggregateVector(runs))
  {
    hide Combine;
    hide AggregateVector;
    hide Judged;
    hide JudgedRuns;
    hide Column;
    hide HasAll;
    AggregateAt(runs, Safety);
    AggregateAt(JudgedRuns(item, runs), Safety);
    JudgedKeys(item, AggregateVector(runs));
    var left, right := AggregateVector(JudgedRuns(item, runs)), Judged(item, AggregateVector(runs));
    forall d | d in KNOWN ensures left[d] == right[d] {
      CombineJudged(item, runs, d);
      AggregateAt(JudgedRuns(item, runs), d);
    }
  }

  lemma JudgedKeys(item: Item, v: Vector)
    requires v.Keys == KNOWN
    ensures Judged(item, v).Keys == KNOWN
  {
    MergedVector(item, v);
    hide Applied;
  }

  /** ... and therefore the same gate verdict. */
  lemma GateCommutes(item: Item, runs: seq<Vector>)
    requires runs != [] && forall v | v in runs :: Rated(v)
    ensures AggregateOf(JudgedRuns(item, runs)).aggregatePass == OverallPass(Judged(item, AggregateVector(runs)))
  {
    MergeCommutes(item, runs);
    hide AggregateVector;
    hide Judged;
    hide OverallPass;
  }
}
