/** Scoring an arm case by case with a checkpoint that survives crashes
    (eval/judge_model_migration.py, eval/_gen_judge_compare_cotN.py). */
module Checkpoint {
  import opened Rubric
  import opened Sequencing
  import opened NRun

  // ----- Retrying one call -----

  const MAX_RETRIES: nat := 5

  datatype Reply = Scored(vector: Vector) | Failed(retryable: bool, error: Error)

  /** What the replies from `attempt` on amount to. */
  function Decide(reply: int -> Reply, attempt: nat): Result<Vector>
    decreases MAX_RETRIES - attempt
  {
    match reply(attempt)
    case Scored(v) => Ok(v)
    case Failed(retryable, e) => if !retryable || attempt >= MAX_RETRIES then Err(e) else Decide(reply, attempt + 1)
  }

  /** A call succeeds exactly when some attempt within the limit is scored and every earlier
      one failed retryably. */
  lemma {:induction false} RetrySucceeds(reply: int -> Reply, attempt: nat)
    requires attempt <= MAX_RETRIES
    ensures Decide(reply, attempt).Ok? <==>
      exists k | attempt <= k <= MAX_RETRIES :: reply(k).Scored? && Decide(reply, attempt) == Ok(reply(k).vector)
        && forall j | attempt <= j < k :: reply(j).Failed? && reply(j).retryable
    decreases MAX_RETRIES - attempt
  {
    if reply(attempt).Failed? && reply(attempt).retryable && attempt < MAX_RETRIES {
      RetrySucceeds(reply, attempt + 1);
    } else if reply(attempt).Scored? {
      assert attempt <= attempt <= MAX_RETRIES;
    }
  }

  /** The migration script's loop: stop on a final or last failure. */
  method ScoreWithRetry(reply: int -> Reply) returns (r: Result<Vector>)
    ensures r == Decide(reply, 1)
  {
    var last := RuntimeFailure();
    for attempt := 1 to MAX_RETRIES + 1
      invariant attempt <= MAX_RETRIES && Decide(reply, 1) == Decide(reply, attempt)
    {
      match reply(attempt)
      case Scored(v) => return Ok(v);
      case Failed(retryable, e) =>
        last := e;
        if !retryable || attempt == MAX_RETRIES { break; }
    }
    return Err(last);
  }

  /** The comparison script's loop: stop on a final failure, raise the last one after the loop. */
  method ScoreWithRetryAll(reply: int -> Reply) returns (r: Result<Vector>)
    ensures r == Decide(reply, 1)
  {
    var last := RuntimeFailure();
    for attempt := 1 to MAX_RETRIES + 1
      invariant attempt <= MAX_RETRIES ==> Decide(reply, 1) == Decide(reply, attempt)
      invariant attempt == MAX_RETRIES + 1 ==> Decide(reply, 1) == Err(last)
    {
      match reply(attempt)
      case Scored(v) => return Ok(v);
      case Failed(retryable, e) =>
        last := e;
        if !retryable { break; }
    }
    return Err(last);
  }

  function RuntimeFailure(): Error { ValueError }

  // ----- Scoring one case -----

  datatype Item = Item(id: Id, family: string, reference: Vector)

  /** Replies by item, call number and attempt. */
  type Judge = (Id, int, int) -> Reply

  function CallReply(judge: Judge, id: Id): int -> Result<Vector> {
    call => Decide(attempt => judge(id, call, attempt), 1)
  }

  /** n calls aggregated; an error from any call, or no calls at all, raises. */
  function ScoreItem(judge: Judge, item: Item, n: nat): Result<Case> {
    match MapAll(seq(n, i => i), CallReply(judge, item.id))
    case Err(e) => Err(e)
    case Ok(vectors) =>
      if vectors == [] then Err(ValueError)
      else Ok(Case(item.id, item.family, item.reference, AggregateOf(vectors)))
  }

  // ----- One attempt at the whole arm -----

  function IdsOf(cases: seq<Case>): set<Id> { set c | c in cases :: c.id }

  /** What an attempt leaves in the checkpoint, and whether it got to the end. It dies when
      scoring raises, or from outside after `patience` further cases. */
  datatype Progress = Progress(scored: seq<Case>, completed: bool)

  /** From item i on, skipping the ids found in the checkpoint at the start. */
  function Advance(scored: seq<Case>, items: seq<Item>, i: nat, skip: set<Id>, judge: Judge, n: nat,
                   patience: nat): Progress
    decreases |items| - i
  {
    if i >= |items| then Progress(scored, true)
    else if items[i].id in skip then Advance(scored, items, i + 1, skip, judge, n, patience)
    else if patience == 0 then Progress(scored, false)
    else
      match ScoreItem(judge, items[i], n)
      case Err(_) => Progress(scored, false)
      case Ok(c) => Advance(scored + [c], items, i + 1, skip, judge, n, patience - 1)
  }

  datatype Attempt = Attempt(judge: Judge, patience: nat)

  function AttemptOn(scored: seq<Case>, items: seq<Item>, n: nat, a: Attempt): Progress {
    Advance(scored, items, 0, IdsOf(scored), a.judge, n, a.patience)
  }

  class Arm {
    /** The checkpoint file; none before the first case is scored. */
    var checkpoint: Option<seq<Case>>

    function Stored(): seq<Case>
      reads this
    {
      if checkpoint.Some? then checkpoint.value else []
    }

    method Run(items: seq<Item>, n: nat, a: Attempt) returns (report: Option<Report>)
      modifies this
      ensures var p := AttemptOn(old(Stored()), items, n, a);
        Stored() == p.scored && report == if p.completed then Some(ReportOf(p.scored)) else None
      ensures Stored() == old(Stored()) ==> checkpoint == old(checkpoint) || checkpoint == Some(old(Stored()))
    {
      hide ScoreItem;
      hide ReportOf;
      var scored := Stored();
      var already := IdsOf(scored);
      var patience := a.patience;
      ghost var whole := AttemptOn(scored, items, n, a);
      for i := 0 to |items|
        invariant Stored() == scored
        invariant Stored() == old(Stored()) ==> checkpoint == old(checkpoint) || checkpoint == Some(old(Stored()))
        invariant whole == Advance(scored, items, i, already, a.judge, n, patience)
      {
        if items[i].id in already { continue; }
        if patience == 0 { return None; }
        var outcome := ScoreItem(a.judge, items[i], n);
        if outcome.Err? { return None; }
        scored := scored + [outcome.value];
        checkpoint := Some(scored);
        patience := patience - 1;
      }
      var r := ScoreAgreement(scored);
      return Some(r);
    }
  }

  // ----- Any number of crashes -----

  predicate DistinctItems(items: seq<Item>) { forall i, j | 0 <= i < j < |items| :: items[i].id != items[j].id }

  predicate Matches(c: Case, item: Item) { c.id == item.id && c.family == item.family && c.reference == item.reference }

  /** The checkpoint holds the first cases, one for each item, in item order. */
  predicate PrefixOf(scored: seq<Case>, items: seq<Item>) {
    |scored| <= |items| && forall i | 0 <= i < |scored| :: Matches(scored[i], items[i])
  }

  lemma ScoreItemMatches(judge: Judge, item: Item, n: nat)
    ensures ScoreItem(judge, item, n).Ok? ==> Matches(ScoreItem(judge, item, n).value, item)
  {
  }

  lemma PrefixIds(scored: seq<Case>, items: seq<Item>, i: nat)
    requires PrefixOf(scored, items) && DistinctItems(items) && i < |items|
    ensures items[i].id in IdsOf(scored) <==> i < |scored|
  {
    if i < |scored| {
      assert scored[i] in scored;
    } else {
      forall k | 0 <= k < |scored| ensures scored[k].id != items[i].id { assert Matches(scored[k], items[k]); }
    }
  }

  /** From position i on, with everything before the resume point already stored. */
  lemma {:induction false} AdvancePrefix(start: seq<Case>, scored: seq<Case>, items: seq<Item>, i: nat, judge: Judge,
                                         n: nat, patience: nat)
    requires PrefixOf(start, items) && DistinctItems(items) && i <= |items|
    requires PrefixOf(scored, items) && start <= scored
    requires |scored| == if i <= |start| then |start| else i
    ensures var p := Advance(scored, items, i, IdsOf(start), judge, n, patience);
      PrefixOf(p.scored, items) && scored <= p.scored && (p.completed ==> |p.scored| == |items|)
    decreases |items| - i
  {
    hide ScoreItem;
    hide Matches;
    if i < |items| {
      PrefixIds(start, items, i);
      hide IdsOf;
      if i < |start| {
        AdvancePrefix(start, scored, items, i + 1, judge, n, patience);
      } else if patience > 0 && ScoreItem(judge, items[i], n).Ok? {
        ScoreItemMatches(judge, items[i], n);
        AdvancePrefix(start, scored + [ScoreItem(judge, items[i], n).value], items, i + 1, judge, n, patience - 1);
      }
    }
  }

  function AfterAttempts(items: seq<Item>, n: nat, attempts: seq<Attempt>): Progress {
    if attempts == [] then Progress([], false)
    else AttemptOn(AfterAttempts(items, n, attempts[..|attempts| - 1]).scored, items, n, attempts[|attempts| - 1])
  }

  /** Starting from no checkpoint, after any number of attempts that die anywhere, the
      checkpoint is a prefix of the arm in item order; it never loses or changes a case; and
      an attempt that completes leaves each item exactly once. */
  lemma {:induction false} CrashesAreHarmless(items: seq<Item>, n: nat, attempts: seq<Attempt>)
    requires DistinctItems(items)
    ensures var p := AfterAttempts(items, n, attempts);
      PrefixOf(p.scored, items) && (p.completed ==> |p.scored| == |items|)
    ensures attempts != [] ==>
      AfterAttempts(items, n, attempts[..|attempts| - 1]).scored <= AfterAttempts(items, n, attempts).scored
  {
    if attempts != [] {
      CrashesAreHarmless(items, n, attempts[..|attempts| - 1]);
      var start := AfterAttempts(items, n, attempts[..|attempts| - 1]).scored;
      var a := attempts[|attempts| - 1];
      AdvancePrefix(start, start, items, 0, a.judge, n, a.patience);
    }
  }

  // ----- A deterministic judge -----

  /** Whenever the judge answers at all, it answers with the ideal case. */
  ghost predicate Faithful(judge: Judge, items: seq<Item>, n: nat, ideal: seq<Case>)
    requires |ideal| == |items|
  {
    forall i | 0 <= i < |items| :: ScoreItem(judge, items[i], n).Ok? ==> ScoreItem(judge, items[i], n).value == ideal[i]
  }

  lemma {:induction false} AdvanceIdeal(start: seq<Case>, scored: seq<Case>, items: seq<Item>, i: nat, judge: Judge,
                                        n: nat, patience: nat, ideal: seq<Case>)
    requires |ideal| == |items| && Faithful(judge, items, n, ideal)
    requires DistinctItems(items) && i <= |items| && PrefixOf(ideal, items)
    requires start <= ideal && scored <= ideal && start <= scored
    requires |scored| == if i <= |start| then |start| else i
    ensures Advance(scored, items, i, IdsOf(start), judge, n, patience).scored <= ideal
    decreases |items| - i
  {
    hide ScoreItem;
    if i < |items| {
      assert PrefixOf(start, items);
      PrefixIds(start, items, i);
      hide IdsOf;
      if i < |start| {
        AdvanceIdeal(start, scored, items, i + 1, judge, n, patience, ideal);
      } else if patience > 0 && ScoreItem(judge, items[i], n).Ok? {
        assert scored + [ideal[i]] <= ideal;
        AdvanceIdeal(start, scored + [ideal[i]], items, i + 1, judge, n, patience - 1, ideal);
      }
    }
  }

  /** With a deterministic judge, a completed arm is the crash-free arm and so is its report,
      however often and wherever earlier attempts died. */
  lemma {:induction false} ResumeRefinesUninterrupted(items: seq<Item>, n: nat, attempts: seq<Attempt>,
      ideal: seq<Case>)
    requires DistinctItems(items) && |ideal| == |items| && PrefixOf(ideal, items)
    requires forall k | 0 <= k < |attempts| :: Faithful(attempts[k].judge, items, n, ideal)
    ensures AfterAttempts(items, n, attempts).scored <= ideal
    ensures AfterAttempts(items, n, attempts).completed ==> AfterAttempts(items, n, attempts).scored == ideal
    ensures AfterAttempts(items, n, attempts).completed ==>
                ReportOf(AfterAttempts(items, n, attempts).scored) == ReportOf(ideal)
  {
    hide ReportOf;
    hide Faithful;
    if attempts != [] {
      var m := |attempts| - 1;
      ResumeRefinesUninterrupted(items, n, attempts[..m], ideal);
      CrashesAreHarmless(items, n, attempts);
      var start := AfterAttempts(items, n, attempts[..m]).scored;
      AdvanceIdeal(start, start, items, 0, attempts[m].judge, n, attempts[m].patience, ideal);
    }
  }

  // ----- Repeated ids -----

  /** The judge scores every item. */
  predicate ScoresAll(judge: Judge, items: seq<Item>, n: nat) {
    forall k | 0 <= k < |items| :: ScoreItem(judge, items[k], n).Ok?
  }

  /** The arm of an uninterrupted run. */
  function FullArm(judge: Judge, items: seq<Item>, n: nat): (arm: seq<Case>)
    requires ScoresAll(judge, items, n)
    ensures |arm| == |items| && forall k | 0 <= k < |items| :: ScoreItem(judge, items[k], n) == Ok(arm[k])
  {
    seq(|items|, k requires 0 <= k < |items| => ScoreItem(judge, items[k], n).value)
  }

  /** The items from i on that are not skipped. */
  function Unskipped(items: seq<Item>, i: nat, skip: set<Id>): nat
    requires i <= |items|
    decreases |items| - i
  {
    if i == |items| then 0 else (if items[i].id in skip then 0 else 1) + Unskipped(items, i + 1, skip)
  }

  /** A run with enough patience adds one case for each item that is not skipped. */
  lemma {:induction false} AdvanceCounts(scored: seq<Case>, items: seq<Item>, i: nat, skip: set<Id>, judge: Judge,
                                         n: nat, patience: nat)
    requires i <= |items| && ScoresAll(judge, items, n) && Unskipped(items, i, skip) <= patience
    ensures var p := Advance(scored, items, i, skip, judge, n, patience);
      p.completed && |p.scored| == |scored| + Unskipped(items, i, skip)
    decreases |items| - i
  {
    hide ScoreItem;
    if i < |items| {
      if items[i].id in skip {
        AdvanceCounts(scored, items, i + 1, skip, judge, n, patience);
      } else {
        AdvanceCounts(scored + [ScoreItem(judge, items[i], n).value], items, i + 1, skip, judge, n, patience - 1);
      }
    }
  }

  /** From no checkpoint nothing is skipped: a run dies with exactly its patience in cases. */
  lemma {:induction false} FirstAttempt(items: seq<Item>, i: nat, judge: Judge, n: nat, patience: nat, m: nat)
    requires ScoresAll(judge, items, n) && i <= m <= |items|
    requires m == if i + patience <= |items| then i + patience else |items|
    ensures Advance(FullArm(judge, items, n)[..i], items, i, {}, judge, n, patience)
         == Progress(FullArm(judge, items, n)[..m], m == |items|)
    decreases |items| - i
  {
    hide ScoreItem;
    var arm := FullArm(judge, items, n);
    if i < |items| && patience > 0 {
      assert arm[..i] + [arm[i]] == arm[..i + 1];
      FirstAttempt(items, i + 1, judge, n, patience - 1, m);
    }
  }

  /** What is left in the checkpoint when the arm dies after p cases and is resumed once. */
  function Resumed(items: seq<Item>, judge: Judge, n: nat, p: nat): Progress {
    AfterAttempts(items, n, [Attempt(judge, p), Attempt(judge, |items|)])
  }

  lemma FreshAttempt(items: seq<Item>, n: nat, judge: Judge, p: nat)
    ensures AttemptOn([], items, n, Attempt(judge, p)) == Advance([], items, 0, {}, judge, n, p)
  {
    assert IdsOf([]) == {};
    hide Advance;
  }

  lemma ResumedParts(items: seq<Item>, judge: Judge, n: nat, p: nat)
    requires ScoresAll(judge, items, n)
    ensures var m := if p <= |items| then p else |items|;
      Resumed(items, judge, n, p) == AttemptOn(FullArm(judge, items, n)[..m], items, n, Attempt(judge, |items|))
  {
    hide *;
    var m := if p <= |items| then p else |items|;
    ResumedIs(items, judge, n, p);
    TwoAttempts(items, n, Attempt(judge, p), Attempt(judge, |items|));
    FreshAttempt(items, n, judge, p);
    FirstAttempt(items, 0, judge, n, p, m);
    assert FullArm(judge, items, n)[..0] == [];
  }

  /** Some attempt always scores the whole arm, repeated ids or not. */
  lemma Uninterrupted(items: seq<Item>, judge: Judge, n: nat)
    requires ScoresAll(judge, items, n)
    ensures AfterAttempts(items, n, [Attempt(judge, |items|)]) == Progress(FullArm(judge, items, n), true)
  {
    hide *;
    TwoAttempts(items, n, Attempt(judge, |items|), Attempt(judge, |items|));
    FreshAttempt(items, n, judge, |items|);
    FirstAttempt(items, 0, judge, n, |items|, |items|);
    assert FullArm(judge, items, n)[..0] == [] && FullArm(judge, items, n)[..|items|] == FullArm(judge, items, n);
  }

  lemma {:induction false} SkippedPrefix(items: seq<Item>, i: nat, m: nat, skip: set<Id>)
    requires i <= m <= |items| && forall k | 0 <= k < m :: items[k].id in skip
    ensures Unskipped(items, i, skip) == Unskipped(items, m, skip)
    decreases m - i
  {
    if i < m { SkippedPrefix(items, i + 1, m, skip); }
  }

  lemma {:induction false} UnskippedBound(items: seq<Item>, i: nat, skip: set<Id>)
    requires i <= |items|
    ensures Unskipped(items, i, skip) <= |items| - i
    ensures forall j | i <= j < |items| && items[j].id in skip :: Unskipped(items, i, skip) < |items| - i
    decreases |items| - i
  {
    if i < |items| { UnskippedBound(items, i + 1, skip); }
  }

  lemma ArmIds(items: seq<Item>, judge: Judge, n: nat, m: nat)
    requires ScoresAll(judge, items, n) && m <= |items|
    ensures PrefixOf(FullArm(judge, items, n), items)
    ensures forall k | 0 <= k < m :: items[k].id in IdsOf(FullArm(judge, items, n)[..m])
  {
    var arm := FullArm(judge, items, n);
    forall k | 0 <= k < |items| ensures Matches(arm[k], items[k]) { ScoreItemMatches(judge, items[k], n); }
    hide ScoreItem;
    forall k | 0 <= k < m ensures items[k].id in IdsOf(arm[..m]) {
      assert arm[..m][k] == arm[k] && arm[..m][k] in arm[..m];
    }
  }

  /** How many cases a resumed arm ends with. */
  lemma ResumedCounts(items: seq<Item>, judge: Judge, n: nat, p: nat, m: nat)
    requires ScoresAll(judge, items, n) && m == if p <= |items| then p else |items|
    ensures var skip := IdsOf(FullArm(judge, items, n)[..m]);
      Resumed(items, judge, n, p).completed && |Resumed(items, judge, n, p).scored| == m + Unskipped(items, 0, skip)
      && Unskipped(items, 0, skip) == Unskipped(items, m, skip)
  {
    var start := FullArm(judge, items, n)[..m];
    var skip := IdsOf(start);
    assert |start| == m;
    ResumedParts(items, judge, n, p);
    ArmIds(items, judge, n, m);
    assert AttemptOn(start, items, n, Attempt(judge, |items|)) == Advance(start, items, 0, skip, judge, n, |items|);
    hide *;
    UnskippedBound(items, 0, skip);
    SkippedPrefix(items, 0, m, skip);
    AdvanceCounts(start, items, 0, skip, judge, n, |items|);
  }

  /** In any list with a repeated id, dying after its first occurrence and resuming completes with
      fewer cases than the uninterrupted run: the later occurrence is skipped. */
  lemma RepeatedIdDiverges(items: seq<Item>, i: nat, j: nat, judge: Judge, n: nat)
    requires i < j < |items| && items[i].id == items[j].id && ScoresAll(judge, items, n)
    ensures |AfterAttempts(items, n, [Attempt(judge, |items|)]).scored| == |items|
    ensures Resumed(items, judge, n, i + 1).completed && |Resumed(items, judge, n, i + 1).scored| < |items|
  {
    hide *;
    Uninterrupted(items, judge, n);
    ResumedCounts(items, judge, n, i + 1, i + 1);
    ArmIds(items, judge, n, i + 1);
    UnskippedBound(items, i + 1, IdsOf(FullArm(judge, items, n)[..i + 1]));
  }

  /** Resuming is safe exactly for distinct ids: with a judge that scores every item, dying at any
      point and resuming gives the uninterrupted arm if and only if no id is repeated. */
  lemma ResumeSafeIffDistinct(items: seq<Item>, judge: Judge, n: nat)
    requires ScoresAll(judge, items, n)
    ensures (forall p: nat :: Resumed(items, judge, n, p) == AfterAttempts(items, n, [Attempt(judge, |items|)]))
            <==> DistinctItems(items)
  {
    Uninterrupted(items, judge, n);
    if DistinctItems(items) {
      forall p: nat ensures Resumed(items, judge, n, p) == Progress(FullArm(judge, items, n), true) {
        ResumedSafely(items, judge, n, p);
      }
    } else {
      var i, j :| 0 <= i < j < |items| && items[i].id == items[j].id;
      RepeatedIdDiverges(items, i, j, judge, n);
      hide Resumed;
      assert Resumed(items, judge, n, i + 1) != AfterAttempts(items, n, [Attempt(judge, |items|)]);
    }
  }

  lemma ResumedSafely(items: seq<Item>, judge: Judge, n: nat, p: nat)
    requires ScoresAll(judge, items, n) && DistinctItems(items)
    ensures Resumed(items, judge, n, p) == Progress(FullArm(judge, items, n), true)
  {
    hide *;
    var arm := FullArm(judge, items, n);
    ArmIds(items, judge, n, |items|);
    ResumedCounts(items, judge, n, p, if p <= |items| then p else |items|);
    FullArmFaithful(items, judge, n);
    ResumedAttempts(items, judge, n, p, arm);
  }

  lemma FullArmFaithful(items: seq<Item>, judge: Judge, n: nat)
    requires ScoresAll(judge, items, n)
    ensures Faithful(judge, items, n, FullArm(judge, items, n))
  {
    hide ScoreItem;
  }

  lemma ResumedAttempts(items: seq<Item>, judge: Judge, n: nat, p: nat, ideal: seq<Case>)
    requires DistinctItems(items) && |ideal| == |items| && PrefixOf(ideal, items) && Faithful(judge, items, n, ideal)
    ensures Resumed(items, judge, n, p).completed ==> Resumed(items, judge, n, p).scored == ideal
  {
    hide *;
    ResumedIs(items, judge, n, p);
    ResumeRefinesUninterrupted(items, n, [Attempt(judge, p), Attempt(judge, |items|)], ideal);
  }

  lemma ResumedIs(items: seq<Item>, judge: Judge, n: nat, p: nat)
    ensures Resumed(items, judge, n, p) == AfterAttempts(items, n, [Attempt(judge, p), Attempt(judge, |items|)])
  {
    hide AfterAttempts;
  }

  lemma TwoAttempts(items: seq<Item>, n: nat, a: Attempt, b: Attempt)
    ensures AfterAttempts(items, n, [a]) == AttemptOn([], items, n, a)
    ensures AfterAttempts(items, n, [a, b]) == AttemptOn(AfterAttempts(items, n, [a]).scored, items, n, b)
  {
    assert [a][..0] == [] && [a, b][..1] == [a];
    assert AfterAttempts(items, n, []) == Progress([], false);
    hide AttemptOn;
  }
}
