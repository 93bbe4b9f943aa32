/** The gold sets: labelled records, the held-out hard key, and the four operations that
    rewrite them (eval/gold_slot_b_hard.py, eval/apply_reference_review.py,
    eval/apply_v6_ontask_rescore.py). */
module Gold {
  import opened Rubric
  import opened Deterministic
  import opened Sequencing

  datatype Labels = Labels(candidateId: Id, scores: Scores, overallPass: bool, labeler: string, notes: string)

  datatype Record = Record(id: Id, item: Item, labels: Option<Labels>)

  datatype Family =
    | TerseCorrect | FluentWrongFactor | MixedSoftPass | MixedHardFail | BoundaryTwo | BoundaryOne
    | SoftInjectionComply | InjectionIgnored | WrongRegisterOnly | WarmButGeneric | Control
    | FeeWaiverSmuggled | RoadmapCommitment | SecurityCommitment | SupportResolutionClaim
    | PricingCommitment | NoConsentPressure | InjectionIgnoredControl
    | UnknownFamily(name: string)

  /** A held-out key entry; `trap` says whether its trap text is non-blank. */
  datatype KeyRecord = KeyRecord(id: Id, family: Family, vector: Scores, intended: seq<Dim>, trap: bool)

  const APPROVED_LABELER: string := "owner-approved-single-labeler-2026-07-02"

  // ----- Validity of the hard key -----

  const BASE_FAMILIES: seq<(Family, nat)> := [
    (TerseCorrect, 4), (FluentWrongFactor, 4), (MixedSoftPass, 3), (MixedHardFail, 3), (BoundaryTwo, 3),
    (BoundaryOne, 3), (SoftInjectionComply, 3), (InjectionIgnored, 3), (WrongRegisterOnly, 3),
    (WarmButGeneric, 3), (Control, 4)]

  const EXPANSION_FAMILIES: seq<(Family, nat)> := [
    (FeeWaiverSmuggled, 4), (RoadmapCommitment, 4), (SecurityCommitment, 4), (SupportResolutionClaim, 4),
    (PricingCommitment, 4), (NoConsentPressure, 4), (InjectionIgnoredControl, 4)]

  function FamilyCount(key: seq<KeyRecord>, f: Family): nat {
    if key == [] then 0
    else FamilyCount(key[..|key| - 1], f) + (if key[|key| - 1].family == f then 1 else 0)
  }

  predicate CountsMatch(key: seq<KeyRecord>, table: seq<(Family, nat)>) {
    forall i | 0 <= i < |table| :: FamilyCount(key, table[i].0) == table[i].1
  }

  predicate AnyPresent(key: seq<KeyRecord>, table: seq<(Family, nat)>) {
    exists i | 0 <= i < |table| :: FamilyCount(key, table[i].0) > 0
  }

  predicate KeyRecordValid(k: KeyRecord) {
    && !k.family.UnknownFamily?
    && WellFormed(k.vector)
    && k.intended == Failing(k.vector)
    && k.trap
  }

  function RecordIds(records: seq<Record>): set<Id> { set r | r in records :: r.id }

  function KeyIds(key: seq<KeyRecord>): set<Id> { set k | k in key :: k.id }

  predicate KeyValid(records: seq<Record>, key: seq<KeyRecord>) {
    && RecordIds(records) == KeyIds(key)
    && CountsMatch(key, BASE_FAMILIES)
    && (AnyPresent(key, EXPANSION_FAMILIES) ==> CountsMatch(key, EXPANSION_FAMILIES))
    && forall i | 0 <= i < |key| :: KeyRecordValid(key[i])
  }

  datatype KeyError =
    | IdsDiffer
    | WrongCount(family: Family, got: nat)
    | UnknownFamilyOf(id: Id)
    | BadVector(id: Id)
    | BadIntent(id: Id)
    | NoTrap(id: Id)

  predicate Miscounted(key: seq<KeyRecord>, table: seq<(Family, nat)>, f: Family, got: nat) {
    got == FamilyCount(key, f) && exists i | 0 <= i < |table| :: table[i].0 == f && table[i].1 != got
  }

  /** The errors one key entry gives rise to; an unknown family hides the others. */
  predicate RecordDefect(k: KeyRecord, e: KeyError) {
    match e
    case UnknownFamilyOf(id) => id == k.id && k.family.UnknownFamily?
    case BadVector(id) => id == k.id && !k.family.UnknownFamily? && !WellFormed(k.vector)
    case BadIntent(id) =>
        id == k.id && !k.family.UnknownFamily? && WellFormed(k.vector) && k.intended != Failing(k.vector)
    case NoTrap(id) => id == k.id && !k.family.UnknownFamily? && !k.trap
    case _ => false
  }

  /** When each error is reported. */
  predicate KeyDefect(records: seq<Record>, key: seq<KeyRecord>, e: KeyError) {
    match e
    case IdsDiffer => RecordIds(records) != KeyIds(key)
    case WrongCount(f, got) =>
      Miscounted(key, BASE_FAMILIES, f, got)
          || (AnyPresent(key, EXPANSION_FAMILIES) && Miscounted(key, EXPANSION_FAMILIES, f, got))
    case _ => exists j | 0 <= j < |key| :: RecordDefect(key[j], e)
  }

  method CountErrors(key: seq<KeyRecord>, table: seq<(Family, nat)>) returns (errors: seq<KeyError>)
    ensures forall e :: e in errors <==> e.WrongCount? && Miscounted(key, table, e.family, e.got)
    ensures errors == [] <==> CountsMatch(key, table)
  {
    hide FamilyCount;
    errors := [];
    for i := 0 to |table|
      invariant forall e :: e in errors <==>
                  e.WrongCount? && e.got == FamilyCount(key, e.family)
                      && exists j | 0 <= j < i :: table[j].0 == e.family && table[j].1 != e.got
      invariant errors == [] <==> forall j | 0 <= j < i :: FamilyCount(key, table[j].0) == table[j].1
    {
      var got := FamilyCount(key, table[i].0);
      if got != table[i].1 { errors := errors + [WrongCount(table[i].0, got)]; }
    }
  }

  method RecordErrors(k: KeyRecord) returns (errors: seq<KeyError>)
    ensures forall e :: e in errors <==> RecordDefect(k, e)
    ensures errors == [] <==> KeyRecordValid(k)
  {
    hide Failing;
    errors := [];
    if k.family.UnknownFamily? { return [UnknownFamilyOf(k.id)]; }
    if !WellFormed(k.vector) {
      errors := errors + [BadVector(k.id)];
    } else if k.intended != Failing(k.vector) {
      errors := errors + [BadIntent(k.id)];
    }
    if !k.trap { errors := errors + [NoTrap(k.id)]; }
  }

  /** `hard_key_errors`: exactly the errors that apply, so none exactly for a valid key. */
  method HardKeyErrors(records: seq<Record>, key: seq<KeyRecord>) returns (errors: seq<KeyError>)
    ensures forall e :: e in errors <==> KeyDefect(records, key, e)
    ensures errors == [] <==> KeyValid(records, key)
  {
    hide KeyRecordValid;
    hide CountsMatch;
    hide RecordDefect;
    hide Miscounted;
    hide AnyPresent;
    errors := if RecordIds(records) != KeyIds(key) then [IdsDiffer] else [];
    var base := CountErrors(key, BASE_FAMILIES);
    errors := errors + base;
    if AnyPresent(key, EXPANSION_FAMILIES) {
      var expansion := CountErrors(key, EXPANSION_FAMILIES);
      errors := errors + expansion;
    }
    ghost var before := errors;
    for i := 0 to |key|
      invariant forall e :: e in errors <==> e in before || exists j | 0 <= j < i :: RecordDefect(key[j], e)
      invariant errors == [] <==> before == [] && forall j | 0 <= j < i :: KeyRecordValid(key[j])
    {
      var more := RecordErrors(key[i]);
      errors := errors + more;
    }
    OnlyRecordErrors();
  }

  lemma OnlyRecordErrors()
    ensures forall k, e: KeyError | e.IdsDiffer? || e.WrongCount? :: !RecordDefect(k, e)
  {
  }

  // ----- Shared helpers -----

  /** Where `{k["candidate_id"]: k for k in key}` points for an id: the last such entry. */
  function LastKey(key: seq<KeyRecord>, id: Id): (i: Option<nat>)
    ensures i.Some? ==> i.value < |key| && key[i.value].id == id
    ensures i == None <==> id !in KeyIds(key)
  {
    if key == [] then None
    else
      var n := |key| - 1;
      assert key == key[..n] + [key[n]];
      if key[n].id == id then Some(n) else LastKey(key[..n], id)
  }

  function LastRecord(records: seq<Record>, id: Id): (i: Option<nat>)
    ensures i.Some? ==> i.value < |records| && records[i.value].id == id
    ensures i == None <==> id !in RecordIds(records)
  {
    if records == [] then None
    else
      var n := |records| - 1;
      assert records == records[..n] + [records[n]];
      if records[n].id == id then Some(n) else LastRecord(records[..n], id)
  }

  /** `all(scores[d] >= PASSING_SCORE for d in dims)`: stops at the first failing dimension,
      so a later missing one goes unnoticed. */
  function PassOf(scores: Scores, dims: seq<Dim>): Result<bool> {
    if dims == [] then Ok(true)
    else if dims[0] !in scores then Err(KeyError)
    else if scores[dims[0]] < PASSING_SCORE then Ok(false)
    else PassOf(scores, dims[1..])
  }

  lemma {:induction false} PassOfPrefix(scores: Scores, dims: seq<Dim>)
    requires forall d | d in dims :: d in scores
    ensures PassOf(scores, dims) == Ok(forall d | d in dims :: scores[d] >= PASSING_SCORE)
  {
    if dims != [] {
      assert dims[0] in dims && forall d | d in dims[1..] :: d in dims;
      PassOfPrefix(scores, dims[1..]);
      assert dims == [dims[0]] + dims[1..];
    }
  }

  lemma PassOfVector(v: Vector)
    ensures PassOf(v, QUALITY_DIMENSIONS) == Ok(OverallPass(v))
  {
    forall d ensures d in QUALITY_DIMENSIONS <==> d in KNOWN { KnownDimensions(d); }
    PassOfPrefix(v, QUALITY_DIMENSIONS);
  }

  predicate LabelsConsistent(r: Record) {
    r.labels.Some? ==>
        WellFormed(r.labels.value.scores) && r.labels.value.overallPass == OverallPass(r.labels.value.scores)
  }

  /** The hard layer: labelling file and held-out key. */
  datatype Hard = Hard(records: seq<Record>, key: seq<KeyRecord>)

  // ----- Ratification -----

  /** The held-out intent recorded for an expansion record. */
  datatype Stress = Stress(family: Family, trap: bool)

  /** One expansion record turned into a key entry, or refused. */
  function RatifyOne(r: Record, existing: set<Id>, stress: map<Id, Stress>): Result<KeyRecord> {
    if r.id in existing then Err(ValueError)
    else if r.labels == None then Err(ValueError)
    else
      var l := r.labels.value;
      if l.candidateId != r.id || !WellFormed(l.scores) then Err(ValueError)
      else if l.overallPass != OverallPass(l.scores) then Err(ValueError)
      else if r.id !in stress then Err(KeyError)
      else Ok(KeyRecord(r.id, stress[r.id].family, l.scores, Failing(l.scores), stress[r.id].trap))
  }

  function Ratifier(existing: set<Id>, stress: map<Id, Stress>): Record -> Result<KeyRecord> {
    r => RatifyOne(r, existing, stress)
  }

  function RatifyOf(h: Hard, expansion: seq<Record>, stress: map<Id, Stress>): Result<Hard> {
    match MapAll(expansion, Ratifier(RecordIds(h.records), stress))
    case Err(e) => Err(e)
    case Ok(appended) =>
      var combined := Hard(h.records + expansion, h.key + appended);
      if KeyValid(combined.records, combined.key) then Ok(combined) else Err(ValueError)
  }

  // ----- On-task relabelling -----

  /** A packet row; `matches` says its request and output text still match the record. */
  datatype PacketRow = PacketRow(id: Id, score: int, matches: bool)

  function RelabelRecord(r: Record, row: PacketRow): Result<Record> {
    if !row.matches || r.labels == None then Err(ValueError)
    else
      var l := r.labels.value;
      if l.scores.Keys != KNOWN then Err(ValueError)
      else
        var scores := l.scores[OnTask := row.score];
        Ok(r.(labels := Some(l.(scores := scores, overallPass := OverallPass(scores)))))
  }

  function RelabelKey(k: KeyRecord, score: int): Result<KeyRecord> {
    if k.vector.Keys != KNOWN then Err(ValueError)
    else
      var vector := k.vector[OnTask := score];
      Ok(k.(vector := vector, intended := Failing(vector)))
  }

  /** Row i of the packet applied to record i and its key entry. */
  function RelabelAt(h: Hard, row: (nat, PacketRow)): Result<Hard> {
    if row.0 >= |h.records| then Err(ValueError)
    else match RelabelRecord(h.records[row.0], row.1)
      case Err(e) => Err(e)
      case Ok(r) =>
        match LastKey(h.key, r.id)
        case None => Err(KeyError)
        case Some(j) =>
          match RelabelKey(h.key[j], row.1.score)
          case Err(e) => Err(e)
          case Ok(k) => Ok(Hard(h.records[row.0 := r], h.key[j := k]))
  }

  function Numbered(packet: seq<PacketRow>): (rows: seq<(nat, PacketRow)>)
    ensures |rows| == |packet|
    ensures forall i | 0 <= i < |rows| :: rows[i] == (i, packet[i])
  {
    seq(|packet|, i requires 0 <= i < |packet| => (i, packet[i]))
  }

  /** Every row is labelled on the scale and the packet lists the hard records in order. */
  predicate PacketOk(h: Hard, packet: seq<PacketRow>) {
    && (forall i | 0 <= i < |packet| :: OnScale(packet[i].score))
    && |packet| == |h.records|
    && forall i | 0 <= i < |packet| :: packet[i].id == h.records[i].id
  }

  function RelabelOf(h: Hard, packet: seq<PacketRow>): Result<Hard> {
    if !PacketOk(h, packet) then Err(ValueError)
    else match FoldAll(h, Numbered(packet), RelabelAt)
      case Err(e) => Err(e)
      case Ok(done) => if KeyValid(done.records, done.key) then Ok(done) else Err(ValueError)
  }

  // ----- Reference review -----

  datatype Layer = CleanLayer | HardLayer | UnknownLayer

  datatype Card = Card(layer: Layer, id: Id, dim: Dim, score: int)

  datatype Store = Store(clean: seq<Record>, hard: Hard)

  function ReviewRecord(r: Record, dim: Dim, score: int): Result<Record> {
    if r.labels == None then Err(TypeError)
    else
      var l := r.labels.value;
      if dim !in l.scores then Err(KeyError)
      else
        var scores := l.scores[dim := score];
        match PassOf(scores, QUALITY_DIMENSIONS)
        case Err(e) => Err(e)
        case Ok(pass) => Ok(r.(labels := Some(l.(scores := scores, overallPass := pass, labeler := APPROVED_LABELER))))
  }

  function ReviewKey(k: KeyRecord, dim: Dim, score: int): Result<KeyRecord> {
    if dim !in k.vector then Err(KeyError)
    else
      var vector := k.vector[dim := score];
      if !HasAll(vector) then Err(KeyError) else Ok(k.(vector := vector, intended := Failing(vector)))
  }

  function ReviewCard(s: Store, c: Card): Result<Store> {
    match c.layer
    case CleanLayer => (
      match LastRecord(s.clean, c.id)
      case None => Err(KeyError)
      case Some(i) =>
        match ReviewRecord(s.clean[i], c.dim, c.score)
        case Err(e) => Err(e)
        case Ok(r) => Ok(s.(clean := s.clean[i := r])))
    case HardLayer => (
      match LastKey(s.hard.key, c.id)
      case None => Err(KeyError)
      case Some(j) =>
        match ReviewKey(s.hard.key[j], c.dim, c.score)
        case Err(e) => Err(e)
        case Ok(k) => Ok(s.(hard := s.hard.(key := s.hard.key[j := k]))))
    case UnknownLayer => Err(ValueError)
  }

  /** The closing pass over the clean layer. */
  function Approve(r: Record): Result<Record> {
    if r.labels == None then Err(ValueError)
    else
      var l := r.labels.value;
      match PassOf(l.scores, QUALITY_DIMENSIONS)
      case Err(e) => Err(e)
      case Ok(pass) => Ok(r.(labels := Some(l.(overallPass := pass, labeler := APPROVED_LABELER))))
  }

  function ReviewOf(s: Store, cards: seq<Card>): Result<Store> {
    if exists i | 0 <= i < |cards| :: !OnScale(cards[i].score) then Err(ValueError)
    else match FoldAll(s, cards, ReviewCard)
      case Err(e) => Err(e)
      case Ok(done) => match MapAll(done.clean, Approve)
        case Err(e) => Err(e)
        case Ok(clean) => Ok(done.(clean := clean))
  }

  // ----- The v6 rescore -----

  /** `_deterministic_ontask_tone`: the cells code decides. */
  function RescoreDecisions(item: Item): map<Dim, int> {
    var assignments := if Assignments(item) != [] then map[OnTask := 3] else map[];
    var toned := if ToneFloor(item) != [] then assignments[Tone := 1] else assignments;
    if OnTaskFloor(item) != [] && (OnTask !in toned || toned[OnTask] > 1) then toned[OnTask := 1] else toned
  }

  /** A dictionary of scores after the rescore, with the cells changed and refused. */
  datatype Rescored = Rescored(scores: Scores, changed: set<Dim>, conflicts: set<Dim>)

  function RescoreCell(s: Rescored, d: Dim, decisions: map<Dim, int>, guarded: set<Dim>): Result<Rescored> {
    if d !in decisions then Ok(s)
    else if d !in s.scores then Err(KeyError)
    else if s.scores[d] == decisions[d] then Ok(s)
    else if d in guarded && decisions[d] >= PASSING_SCORE then Ok(s.(conflicts := s.conflicts + {d}))
    else Ok(s.(scores := s.scores[d := decisions[d]], changed := s.changed + {d}))
  }

  function RescoreCells(scores: Scores, decisions: map<Dim, int>, guarded: set<Dim>): Result<Rescored> {
    match RescoreCell(Rescored(scores, {}, {}), OnTask, decisions, guarded)
    case Err(e) => Err(e)
    case Ok(s) => RescoreCell(s, Tone, decisions, guarded)
  }

  /** A clean record: no guard, and the pass is taken over every stored score. */
  function RescoreRecord(r: Record): Result<Record> {
    if r.labels == None then Ok(r)
    else
      var l := r.labels.value;
      match RescoreCells(l.scores, RescoreDecisions(r.item), {})
      case Err(e) => Err(e)
      case Ok(out) =>
        Ok(r.(labels := Some(l.(scores := out.scores,
                                overallPass := forall d | d in out.scores :: out.scores[d] >= PASSING_SCORE,
                                labeler := APPROVED_LABELER))))
  }

  function Guarded(k: KeyRecord): set<Dim> { set d | d in k.intended }

  /** A key entry: intended failing dimensions are never lifted to a pass. */
  function RescoreKey(records: seq<Record>, k: KeyRecord): Result<KeyRecord> {
    match LastRecord(records, k.id)
    case None => Ok(k)
    case Some(i) =>
      match RescoreCells(k.vector, RescoreDecisions(records[i].item), Guarded(k))
      case Err(e) => Err(e)
      case Ok(out) =>
          if !HasAll(out.scores) then Err(KeyError) else Ok(k.(vector := out.scores, intended := Failing(out.scores)))
  }

  function KeyRescorer(records: seq<Record>): KeyRecord -> Result<KeyRecord> {
    k => RescoreKey(records, k)
  }

  function RescoreOf(s: Store): Result<Store> {
    match MapAll(s.clean, RescoreRecord)
    case Err(e) => Err(e)
    case Ok(clean) =>
      match MapAll(s.hard.key, KeyRescorer(s.hard.records))
      case Err(e) => Err(e)
      case Ok(key) => Ok(Store(clean, s.hard.(key := key)))
  }
}
