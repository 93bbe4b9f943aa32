/** What the gold-set scripts keep, whatever order they are run in. */
module GoldLaws {
  import opened Rubric
  import opened Deterministic
  import opened Sequencing
  import opened Gold

  /** The key is valid for the hard layer, and every label present covers the six dimensions
      on the scale with a truthful overall verdict. */
  predicate Integrity(s: Store) {
    && KeyValid(s.hard.records, s.hard.key)
    && AllConsistent(s.hard.records)
    && AllConsistent(s.clean)
  }

  predicate AllConsistent(rs: seq<Record>) { forall i | 0 <= i < |rs| :: LabelsConsistent(rs[i]) }

  datatype Script =
    | Ratify(expansion: seq<Record>, stress: map<Id, Stress>)
    | Relabel(packet: seq<PacketRow>)
    | Review(cards: seq<Card>)
    | Rescore

  function Outcome(s: Store, script: Script): Result<Store> {
    match script
    case Ratify(expansion, stress) =>
        (match RatifyOf(s.hard, expansion, stress) case Ok(h) => Ok(s.(hard := h)) case Err(e) => Err(e))
    case Relabel(packet) => (match RelabelOf(s.hard, packet) case Ok(h) => Ok(s.(hard := h)) case Err(e) => Err(e))
    case Review(cards) => ReviewOf(s, cards)
    case Rescore => RescoreOf(s)
  }

  /** A script that raises writes nothing. */
  function After(s: Store, scripts: seq<Script>): Store {
    if scripts == [] then s
    else
      var before := After(s, scripts[..|scripts| - 1]);
      match Outcome(before, scripts[|scripts| - 1]) case Ok(t) => t case Err(_) => before
  }

  // ----- Key entries that differ only in their scores -----

  predicate SameShape(a: seq<KeyRecord>, b: seq<KeyRecord>) {
    |a| == |b| && forall i | 0 <= i < |a| :: a[i].id == b[i].id && a[i].family == b[i].family
  }

  lemma {:induction false} SameCounts(a: seq<KeyRecord>, b: seq<KeyRecord>, f: Family)
    requires SameShape(a, b)
    ensures FamilyCount(a, f) == FamilyCount(b, f)
  {
    if a != [] { SameCounts(a[..|a| - 1], b[..|b| - 1], f); }
  }

  lemma SameTables(a: seq<KeyRecord>, b: seq<KeyRecord>, table: seq<(Family, nat)>)
    requires SameShape(a, b)
    ensures CountsMatch(a, table) == CountsMatch(b, table) && AnyPresent(a, table) == AnyPresent(b, table)
  {
    forall i | 0 <= i < |table| ensures FamilyCount(a, table[i].0) == FamilyCount(b, table[i].0) {
      SameCounts(a, b, table[i].0);
    }
  }

  lemma SameIds(a: seq<KeyRecord>, b: seq<KeyRecord>)
    requires SameShape(a, b)
    ensures KeyIds(a) == KeyIds(b)
  {
    forall id ensures id in KeyIds(a) <==> id in KeyIds(b) {
      if id in KeyIds(a) {
        var i :| 0 <= i < |a| && a[i].id == id;
        assert b[i] in b;
      }
      if id in KeyIds(b) {
        var i :| 0 <= i < |b| && b[i].id == id;
        assert a[i] in a;
      }
    }
  }

  /** Replacing scores by valid entries of the same shape keeps the key valid. */
  lemma ReshapedKeyValid(records: seq<Record>, a: seq<KeyRecord>, b: seq<KeyRecord>)
    requires KeyValid(records, a) && SameShape(a, b)
    requires forall i | 0 <= i < |b| :: KeyRecordValid(b[i])
    ensures KeyValid(records, b)
  {
    SameIds(a, b);
    SameTables(a, b, BASE_FAMILIES);
    SameTables(a, b, EXPANSION_FAMILIES);
    hide FamilyCount;
    hide KeyRecordValid;
    hide CountsMatch;
    hide AnyPresent;
  }

  // ----- Each script keeps integrity -----

  lemma RatifyKeeps(s: Store, expansion: seq<Record>, stress: map<Id, Stress>)
    requires Integrity(s)
    ensures Outcome(s, Ratify(expansion, stress)).Ok? ==> Integrity(Outcome(s, Ratify(expansion, stress)).value)
  {
    hide KeyValid;
    var step := Ratifier(RecordIds(s.hard.records), stress);
    if MapAll(expansion, step).Ok? {
      forall i | 0 <= i < |expansion| ensures LabelsConsistent(expansion[i]) { assert step(expansion[i]).Ok?; }
    }
  }

  predicate RecordsConsistent(h: Hard) { AllConsistent(h.records) }

  lemma RelabelStepKeeps(h: Hard, row: (nat, PacketRow))
    requires RecordsConsistent(h) && OnScale(row.1.score)
    ensures RelabelAt(h, row).Ok? ==> RecordsConsistent(RelabelAt(h, row).value)
  {
  }

  lemma RelabelKeeps(s: Store, packet: seq<PacketRow>)
    requires Integrity(s)
    ensures Outcome(s, Relabel(packet)).Ok? ==> Integrity(Outcome(s, Relabel(packet)).value)
  {
    hide KeyValid;
    hide RelabelAt;
    if PacketOk(s.hard, packet) {
      var rows := Numbered(packet);
      forall h: Hard, row: (nat, PacketRow) | RecordsConsistent(h) && row in rows && RelabelAt(h, row).Ok?
        ensures RecordsConsistent(RelabelAt(h, row).value)
      {
        RelabelStepKeeps(h, row);
      }
      FoldAllInvariant(s.hard, rows, RelabelAt, RecordsConsistent);
    }
  }

  lemma ReviewKeyKeeps(k: KeyRecord, dim: Dim, score: int)
    requires KeyRecordValid(k) && OnScale(score)
    ensures ReviewKey(k, dim, score).Ok? ==>
      (var out := ReviewKey(k, dim, score).value; KeyRecordValid(out) && out.id == k.id && out.family == k.family)
  {
    hide Failing;
  }

  lemma ReviewRecordKeeps(r: Record, dim: Dim, score: int)
    requires LabelsConsistent(r) && OnScale(score)
    ensures ReviewRecord(r, dim, score).Ok? ==> LabelsConsistent(ReviewRecord(r, dim, score).value)
  {
    if r.labels.Some? && dim in r.labels.value.scores {
      PassOfVector(r.labels.value.scores[dim := score]);
      hide PassOf;
    }
  }

  lemma ReviewCardKeeps(s: Store, c: Card)
    requires Integrity(s) && OnScale(c.score)
    ensures ReviewCard(s, c).Ok? ==> Integrity(ReviewCard(s, c).value)
  {
    hide ReviewRecord;
    hide ReviewKey;
    hide LabelsConsistent;
    hide KeyRecordValid;
    hide CountsMatch;
    hide AnyPresent;
    if c.layer == CleanLayer && LastRecord(s.clean, c.id).Some? {
      ReviewRecordKeeps(s.clean[LastRecord(s.clean, c.id).value], c.dim, c.score);
    } else if c.layer == HardLayer && LastKey(s.hard.key, c.id).Some? {
      var j := LastKey(s.hard.key, c.id).value;
      ReviewKeyKeeps(s.hard.key[j], c.dim, c.score);
      var outcome := ReviewKey(s.hard.key[j], c.dim, c.score);
      if outcome.Ok? { ReshapedKeyValid(s.hard.records, s.hard.key, s.hard.key[j := outcome.value]); }
    }
  }

  lemma ApproveKeeps(r: Record)
    requires LabelsConsistent(r)
    ensures Approve(r).Ok? ==> LabelsConsistent(Approve(r).value)
  {
    if r.labels.Some? {
      PassOfVector(r.labels.value.scores);
      hide PassOf;
    }
  }

  lemma ReviewKeeps(s: Store, cards: seq<Card>)
    requires Integrity(s)
    ensures ReviewOf(s, cards).Ok? ==> Integrity(ReviewOf(s, cards).value)
  {
    hide KeyValid;
    hide ReviewCard;
    hide Approve;
    hide LabelsConsistent;
    if forall i | 0 <= i < |cards| :: OnScale(cards[i].score) {
      forall t: Store, c: Card | Integrity(t) && c in cards && ReviewCard(t, c).Ok?
        ensures Integrity(ReviewCard(t, c).value)
      {
        ReviewCardKeeps(t, c);
      }
      FoldAllInvariant(s, cards, ReviewCard, Integrity);
      forall r | LabelsConsistent(r) ensures Approve(r).Ok? ==> LabelsConsistent(Approve(r).value) { ApproveKeeps(r); }
    }
  }

  // ----- The rescore, cell by cell -----

  lemma DecisionCells(item: Item, d: Dim)
    ensures d in RescoreDecisions(item) ==>
                (d == OnTask && RescoreDecisions(item)[d] in {1, 3}) || (d == Tone && RescoreDecisions(item)[d] == 1)
    ensures d in RescoreDecisions(item) <==> (d == OnTask || d == Tone) && (Override(item, d).Some? || Floored(item, d))
    ensures d in RescoreDecisions(item) ==> RescoreDecisions(item)[d] == Decided(item, d, 1)
  {
  }

  /** What the guarded rescore makes of one cell. */
  function NewCell(score: int, decision: int, guarded: bool): int {
    if guarded && decision >= PASSING_SCORE then score else decision
  }

  lemma CellsOutcome(item: Item, v: Scores, guarded: set<Dim>, d: Dim)
    requires HasAll(v)
    ensures RescoreCells(v, RescoreDecisions(item), guarded).Ok?
    ensures RescoreCells(v, RescoreDecisions(item), guarded).value.scores.Keys == v.Keys
    ensures d in v ==>
      (var out := RescoreCells(v, RescoreDecisions(item), guarded).value.scores;
       out[d] == if d in RescoreDecisions(item) then NewCell(v[d], RescoreDecisions(item)[d], d in guarded) else v[d])
  {
    DecisionCells(item, d);
    hide RescoreDecisions;
    hide Override;
    hide Floored;
    hide Decided;
    assert OnTask in v && Tone in v;
  }

  /** The rescore decides on-task and tone exactly as the judge's merge does. */
  lemma RescoreAgreesWithJudge(item: Item, v: Vector, d: Dim)
    requires Rated(v) && (d == OnTask || d == Tone)
    ensures Judged(item, v)[d] == if d in RescoreDecisions(item) then RescoreDecisions(item)[d] else v[d]
  {
    JudgedAt(item, v, d);
    DecisionCells(item, d);
    hide RescoreDecisions;
    hide Judged;
    hide Override;
    hide Floored;
  }

  lemma RescoredOnScale(item: Item, v: Scores, guarded: set<Dim>)
    requires WellFormed(v)
    ensures WellFormed(RescoreCells(v, RescoreDecisions(item), guarded).value.scores)
  {
    hide RescoreCells;
    hide RescoreDecisions;
    CellsOutcome(item, v, guarded, OnTask);
    forall d | d in KNOWN ensures OnScale(RescoreCells(v, RescoreDecisions(item), guarded).value.scores[d]) {
      CellsOutcome(item, v, guarded, d);
      DecisionCells(item, d);
    }
  }

  lemma RescoreRecordKeeps(r: Record)
    requires LabelsConsistent(r)
    ensures RescoreRecord(r).Ok? && LabelsConsistent(RescoreRecord(r).value)
  {
    if r.labels.Some? {
      hide RescoreCells;
      hide RescoreDecisions;
      CellsOutcome(r.item, r.labels.value.scores, {}, OnTask);
      RescoredOnScale(r.item, r.labels.value.scores, {});
    }
  }

  lemma RescoreKeyKeeps(records: seq<Record>, k: KeyRecord)
    requires KeyRecordValid(k)
    ensures RescoreKey(records, k).Ok? && KeyRecordValid(RescoreKey(records, k).value)
    ensures RescoreKey(records, k).value.id == k.id && RescoreKey(records, k).value.family == k.family
  {
    hide RescoreCells;
    hide RescoreDecisions;
    hide Failing;
    if LastRecord(records, k.id).Some? {
      var item := records[LastRecord(records, k.id).value].item;
      CellsOutcome(item, k.vector, Guarded(k), OnTask);
      RescoredOnScale(item, k.vector, Guarded(k));
    }
  }

  lemma MapAllTotal<A(!new), B>(xs: seq<A>, f: A -> Result<B>)
    requires forall i | 0 <= i < |xs| :: f(xs[i]).Ok?
    ensures MapAll(xs, f).Ok?
  {
  }

  /** On an intact store the rescore always succeeds and keeps integrity. */
  lemma RescoreKeeps(s: Store)
    requires Integrity(s)
    ensures RescoreOf(s).Ok? && Integrity(RescoreOf(s).value)
  {
    hide RescoreRecord;
    hide RescoreKey;
    hide LabelsConsistent;
    hide KeyRecordValid;
    hide CountsMatch;
    hide AnyPresent;
    forall i | 0 <= i < |s.clean|
      ensures RescoreRecord(s.clean[i]).Ok? && LabelsConsistent(RescoreRecord(s.clean[i]).value)
    {
      RescoreRecordKeeps(s.clean[i]);
    }
    MapAllTotal(s.clean, RescoreRecord);
    var f := KeyRescorer(s.hard.records);
    forall i | 0 <= i < |s.hard.key|
      ensures f(s.hard.key[i]).Ok? && KeyRecordValid(f(s.hard.key[i]).value)
      ensures f(s.hard.key[i]).value.id == s.hard.key[i].id && f(s.hard.key[i]).value.family == s.hard.key[i].family
    {
      RescoreKeyKeeps(s.hard.records, s.hard.key[i]);
    }
    MapAllTotal(s.hard.key, f);
    ReshapedKeyValid(s.hard.records, s.hard.key, MapAll(s.hard.key, f).value);
  }

  /** Integrity survives every interleaving of the scripts. */
  lemma {:induction false} IntegrityForever(s: Store, scripts: seq<Script>)
    requires Integrity(s)
    ensures Integrity(After(s, scripts))
  {
    hide Integrity;
    hide RatifyOf;
    hide RelabelOf;
    hide ReviewOf;
    hide RescoreOf;
    if scripts != [] {
      IntegrityForever(s, scripts[..|scripts| - 1]);
      var before := After(s, scripts[..|scripts| - 1]);
      match scripts[|scripts| - 1]
      case Ratify(expansion, stress) => RatifyKeeps(before, expansion, stress);
      case Relabel(packet) => RelabelKeeps(before, packet);
      case Review(cards) => ReviewKeeps(before, cards);
      case Rescore => RescoreKeeps(before);
    }
  }

  // ----- Ratifying twice -----

  lemma {:induction false} RelabelKeepsIds(h: Hard, rows: seq<(nat, PacketRow)>)
    ensures FoldAll(h, rows, RelabelAt).Ok? ==>
      var out := FoldAll(h, rows, RelabelAt).value;
      |out.records| == |h.records| && forall i | 0 <= i < |h.records| :: out.records[i].id == h.records[i].id
  {
    if rows != [] { RelabelKeepsIds(h, rows[..|rows| - 1]); }
  }

  lemma {:induction false} ReviewKeepsRecords(s: Store, cards: seq<Card>)
    ensures FoldAll(s, cards, ReviewCard).Ok? ==> FoldAll(s, cards, ReviewCard).value.hard.records == s.hard.records
  {
    if cards != [] { ReviewKeepsRecords(s, cards[..|cards| - 1]); }
  }

  /** No script ever removes a record from the hard layer. */
  lemma IdsKept(s: Store, script: Script, id: Id)
    requires id in RecordIds(s.hard.records) && Outcome(s, script).Ok?
    ensures id in RecordIds(Outcome(s, script).value.hard.records)
  {
    var i :| 0 <= i < |s.hard.records| && s.hard.records[i].id == id;
    var after := Outcome(s, script).value.hard.records;
    match script
    case Ratify(expansion, stress) => assert after[i] == s.hard.records[i];
    case Relabel(packet) => RelabelKeepsIds(s.hard, Numbered(packet)); assert after[i] in after;
    case Review(cards) => ReviewKeepsRecords(s, cards);
    case Rescore =>
  }

  lemma {:induction false} IdsKeptForever(s: Store, scripts: seq<Script>, id: Id)
    requires id in RecordIds(s.hard.records)
    ensures id in RecordIds(After(s, scripts).hard.records)
  {
    hide Outcome;
    if scripts != [] {
      IdsKeptForever(s, scripts[..|scripts| - 1], id);
      var before := After(s, scripts[..|scripts| - 1]);
      if Outcome(before, scripts[|scripts| - 1]).Ok? { IdsKept(before, scripts[|scripts| - 1], id); }
    }
  }

  lemma RefusedWhenPresent(h: Hard, expansion: seq<Record>, stress: map<Id, Stress>)
    requires expansion != [] && expansion[0].id in RecordIds(h.records)
    ensures RatifyOf(h, expansion, stress) == Err(ValueError)
  {
    var step := Ratifier(RecordIds(h.records), stress);
    MapAllStep(expansion, 0, step);
    assert expansion[..0] == [];
    MapAllError(expansion, 1, step, ValueError);
    hide KeyValid;
  }

  /** Once an expansion is ratified it is refused ever after, whatever runs in between. */
  lemma RatifiedOnce(s: Store, expansion: seq<Record>, stress: map<Id, Stress>, scripts: seq<Script>,
                     again: map<Id, Stress>)
    requires expansion != [] && Outcome(s, Ratify(expansion, stress)).Ok?
    ensures Outcome(After(Outcome(s, Ratify(expansion, stress)).value, scripts), Ratify(expansion, again))
                == Err(ValueError)
  {
    var t := Outcome(s, Ratify(expansion, stress)).value;
    assert t.hard.records[|s.hard.records|] == expansion[0];
    IdsKeptForever(t, scripts, expansion[0].id);
    RefusedWhenPresent(After(t, scripts).hard, expansion, again);
  }

  /** What ratification adds to the key is what the labeler said. */
  lemma RatifiedFromLabels(h: Hard, expansion: seq<Record>, stress: map<Id, Stress>, i: nat)
    requires RatifyOf(h, expansion, stress).Ok? && i < |expansion|
    ensures var key := RatifyOf(h, expansion, stress).value.key;
      |key| == |h.key| + |expansion| && key[..|h.key|] == h.key
    ensures var entry := RatifyOf(h, expansion, stress).value.key[|h.key| + i];
      && entry.id == expansion[i].id && entry.id !in RecordIds(h.records)
      && expansion[i].labels.Some? && entry.vector == expansion[i].labels.value.scores
      && forall d :: d in entry.intended <==> Known(d) && entry.vector[d] < PASSING_SCORE
  {
    var step := Ratifier(RecordIds(h.records), stress);
    var appended := MapAll(expansion, step).value;
    assert step(expansion[i]) == Ok(appended[i]);
    var entry := appended[i];
    forall d ensures d in entry.intended <==> Known(d) && entry.vector[d] < PASSING_SCORE {
      FailingMembers(entry.vector, d);
    }
    hide KeyValid;
  }

  // ----- The rescore settles at once -----

  /** A key entry with a failing dimension keeps it failing, and stays failing there. */
  lemma NeverUnfails(records: seq<Record>, k: KeyRecord, d: Dim)
    requires KeyRecordValid(k) && Known(d)
    ensures k.vector[d] < PASSING_SCORE ==> RescoreKey(records, k).value.vector[d] < PASSING_SCORE
    ensures d in k.intended ==> d in RescoreKey(records, k).value.intended
  {
    RescoreKeyKeeps(records, k);
    FailingMembers(k.vector, d);
    if LastRecord(records, k.id).Some? {
      var item := records[LastRecord(records, k.id).value].item;
      CellsOutcome(item, k.vector, Guarded(k), d);
      DecisionCells(item, d);
      FailingMembers(RescoreKey(records, k).value.vector, d);
      hide RescoreCells;
      hide RescoreDecisions;
      hide Failing;
    }
  }

  lemma CellsSettle(item: Item, v: Scores, before: set<Dim>, after: set<Dim>)
    requires WellFormed(v)
    requires forall d | d in KNOWN && d in before :: v[d] < PASSING_SCORE
    requires forall d | d in KNOWN && d in before :: d in after
    ensures var once := RescoreCells(v, RescoreDecisions(item), before).value.scores;
      RescoreCells(once, RescoreDecisions(item), after).value.scores == once
  {
    hide RescoreCells;
    hide RescoreDecisions;
    CellsOutcome(item, v, before, OnTask);
    var once := RescoreCells(v, RescoreDecisions(item), before).value.scores;
    CellsOutcome(item, once, after, OnTask);
    var twice := RescoreCells(once, RescoreDecisions(item), after).value.scores;
    forall d | d in KNOWN ensures twice[d] == once[d] {
      CellsOutcome(item, v, before, d);
      CellsOutcome(item, once, after, d);
    }
  }

  lemma RescoreKeySettles(records: seq<Record>, k: KeyRecord)
    requires KeyRecordValid(k)
    ensures RescoreKey(records, RescoreKey(records, k).value) == RescoreKey(records, k)
  {
    RescoreKeyKeeps(records, k);
    var once := RescoreKey(records, k).value;
    RescoreKeyKeeps(records, once);
    if LastRecord(records, k.id).Some? {
      var item := records[LastRecord(records, k.id).value].item;
      forall d | d in KNOWN && d in Guarded(k) ensures k.vector[d] < PASSING_SCORE && d in Guarded(once) {
        FailingMembers(k.vector, d);
        NeverUnfails(records, k, d);
      }
      CellsSettle(item, k.vector, Guarded(k), Guarded(once));
      hide RescoreCells;
      hide RescoreDecisions;
      hide Failing;
    }
  }

  lemma RescoreRecordSettles(r: Record)
    requires LabelsConsistent(r)
    ensures RescoreRecord(RescoreRecord(r).value) == RescoreRecord(r)
  {
    RescoreRecordKeeps(r);
    if r.labels.Some? {
      CellsOutcome(r.item, r.labels.value.scores, {}, OnTask);
      CellsSettle(r.item, r.labels.value.scores, {}, {});
      RescoredOnScale(r.item, r.labels.value.scores, {});
      var once := RescoreCells(r.labels.value.scores, RescoreDecisions(r.item), {}).value.scores;
      CellsOutcome(r.item, once, {}, OnTask);
      hide RescoreCells;
      hide RescoreDecisions;
    }
  }

  /** Rescoring an intact store twice is rescoring it once. */
  lemma RescoreIdempotent(s: Store)
    requires Integrity(s)
    ensures RescoreOf(s).Ok? && RescoreOf(RescoreOf(s).value) == RescoreOf(s)
  {
    hide RescoreRecord;
    hide RescoreKey;
    hide LabelsConsistent;
    hide KeyRecordValid;
    hide CountsMatch;
    hide AnyPresent;
    RescoreKeeps(s);
    var once := RescoreOf(s).value;
    forall i | 0 <= i < |s.clean| ensures RescoreRecord(once.clean[i]) == Ok(once.clean[i]) {
      RescoreRecordKeeps(s.clean[i]);
      RescoreRecordSettles(s.clean[i]);
    }
    var f := KeyRescorer(s.hard.records);
    forall i | 0 <= i < |s.hard.key| ensures f(once.hard.key[i]) == Ok(once.hard.key[i]) {
      assert f(s.hard.key[i]) == Ok(once.hard.key[i]);
      RescoreKeySettles(s.hard.records, s.hard.key[i]);
    }
    FixedPoint(once.clean, RescoreRecord);
    FixedPoint(once.hard.key, f);
  }

  lemma FixedPoint<A(!new)>(xs: seq<A>, f: A -> Result<A>)
    requires forall i | 0 <= i < |xs| :: f(xs[i]) == Ok(xs[i])
    ensures MapAll(xs, f) == Ok(xs)
  {
    MapAllTotal(xs, f);
    assert MapAll(xs, f).value == xs;
  }

  /** After the rescore the judge's merge no longer moves on-task or tone on a clean record. */
  lemma CleanMatchesJudge(r: Record, d: Dim)
    requires LabelsConsistent(r) && r.labels.Some? && (d == OnTask || d == Tone)
    ensures RescoreRecord(r).Ok? && RescoreRecord(r).value.labels.Some?
    ensures var scores := RescoreRecord(r).value.labels.value.scores;
      WellFormed(scores) && Judged(r.item, scores)[d] == scores[d]
  {
    RescoreRecordKeeps(r);
    CellsOutcome(r.item, r.labels.value.scores, {}, d);
    RescoreAgreesWithJudge(r.item, RescoreRecord(r).value.labels.value.scores, d);
    hide RescoreCells;
    hide RescoreDecisions;
    hide Judged;
  }
}
