/** The tap-through labeling session (eval/label_gold.py) and the label validator its output
    has to satisfy (eval/gold_slot_b_quality.py). */
module Labeler {
  import opened Rubric
  import opened Gold

  // ----- The label validator -----

  predicate Blank(s: string) { forall i | 0 <= i < |s| :: s[i] in " \t\n\r" }

  datatype LabelError = WrongCandidate | IncompleteScores | BadScore(dim: Dim) | WrongOverall | NoLabeler

  predicate ScoreOk(scores: Scores, d: Dim) { d in scores && OnScale(scores[d]) }

  predicate ExpectedOverall(scores: Scores) {
    forall d | d in KNOWN :: ScoreOk(scores, d) && scores[d] >= PASSING_SCORE
  }

  predicate LabelValid(r: Record) {
    r.labels.Some? ==>
      var l := r.labels.value;
      && l.candidateId == r.id
      && WellFormed(l.scores)
      && l.overallPass == OverallPass(l.scores)
      && !Blank(l.labeler)
  }

  /** When each error is reported. */
  predicate Defective(r: Record, e: LabelError) {
    r.labels.Some? &&
      var l := r.labels.value;
      match e
      case WrongCandidate => l.candidateId != r.id
      case IncompleteScores => l.scores.Keys != KNOWN
      case BadScore(d) => Known(d) && !ScoreOk(l.scores, d)
      case WrongOverall => l.overallPass != ExpectedOverall(l.scores)
      case NoLabeler => Blank(l.labeler)
  }

  /** `_label_errors`: exactly the errors that apply, so none exactly for a valid label. */
  method LabelErrors(r: Record) returns (errors: seq<LabelError>)
    ensures forall e :: e in errors <==> Defective(r, e)
    ensures errors == [] <==> LabelValid(r)
  {
    hide *;
    ValidIsDefectFree(r);
    errors := [];
    DefectCases(r);
    if r.labels == None { return; }
    var l := r.labels.value;
    if l.candidateId != r.id { errors := errors + [WrongCandidate]; }
    if l.scores.Keys != KNOWN { errors := errors + [IncompleteScores]; }
    var bad := ScoreErrors(l.scores);
    errors := errors + bad;
    if l.overallPass != ExpectedOverall(l.scores) { errors := errors + [WrongOverall]; }
    if Blank(l.labeler) { errors := errors + [NoLabeler]; }
    assert errors != [] ==> errors[0] in errors;
  }

  method ScoreErrors(scores: Scores) returns (errors: seq<LabelError>)
    ensures forall e :: e in errors <==> e.BadScore? && Known(e.dim) && !ScoreOk(scores, e.dim)
  {
    errors := [];
    for j := 0 to |QUALITY_DIMENSIONS|
      invariant forall e :: e in errors <==> e.BadScore? && e.dim in QUALITY_DIMENSIONS[..j] && !ScoreOk(scores, e.dim)
    {
      var dim := QUALITY_DIMENSIONS[j];
      assert QUALITY_DIMENSIONS[..j + 1] == QUALITY_DIMENSIONS[..j] + [dim];
      if !ScoreOk(scores, dim) { errors := errors + [BadScore(dim)]; }
    }
    forall d ensures d in QUALITY_DIMENSIONS <==> Known(d) { KnownDimensions(d); }
    assert QUALITY_DIMENSIONS[..|QUALITY_DIMENSIONS|] == QUALITY_DIMENSIONS;
  }

  lemma DefectCases(r: Record)
    ensures r.labels == None ==> forall e :: !Defective(r, e)
    ensures r.labels.Some? ==>
              var l := r.labels.value;
              && (Defective(r, WrongCandidate) <==> l.candidateId != r.id)
              && (Defective(r, IncompleteScores) <==> l.scores.Keys != KNOWN)
              && (forall e: LabelError | e.BadScore? :: Defective(r, e) <==> Known(e.dim) && !ScoreOk(l.scores, e.dim))
              && (Defective(r, WrongOverall) <==> l.overallPass != ExpectedOverall(l.scores))
              && (Defective(r, NoLabeler) <==> Blank(l.labeler))
  {
  }

  lemma ValidIsDefectFree(r: Record)
    ensures LabelValid(r) <==> forall e :: !Defective(r, e)
  {
    hide Blank;
    if r.labels.Some? && forall e :: !Defective(r, e) {
      var l := r.labels.value;
      assert !Defective(r, WrongCandidate) && !Defective(r, IncompleteScores) && !Defective(r, WrongOverall)
             && !Defective(r, NoLabeler);
      forall d | d in KNOWN ensures ScoreOk(l.scores, d) { assert !Defective(r, BadScore(d)); }
    }
  }

  // ----- Reading the operator -----

  /** Lines as they are read, stripped; past the end every read yields the empty line. */
  type Tape = seq<string>

  function ScoreOf(line: string): Option<int> {
    if line == "1" then Some(1) else if line == "2" then Some(2) else if line == "3" then Some(3) else None
  }

  /** The first line that is a score, skipping re-prompts; none when the tape runs dry, in
      which case the prompt repeats without end. */
  function ReadScore(tape: Tape): (r: Option<(int, Tape)>)
    ensures r.Some? ==> OnScale(r.value.0) && |r.value.1| < |tape|
  {
    if tape == [] then None
    else if ScoreOf(tape[0]).Some? then Some((ScoreOf(tape[0]).value, tape[1..]))
    else ReadScore(tape[1..])
  }

  function ReadScores(tape: Tape, dims: seq<Dim>): (r: Option<(Scores, Tape)>)
    ensures r.Some? ==> |r.value.1| <= |tape| && (dims != [] ==> |r.value.1| < |tape|)
    ensures r.Some? ==> (forall d :: d in r.value.0 <==> d in dims) && forall d | d in dims :: OnScale(r.value.0[d])
    decreases |dims|
  {
    if dims == [] then Some((map[], tape))
    else
      match ReadScores(tape, dims[..|dims| - 1])
      case None => None
      case Some(before) =>
        assert dims == dims[..|dims| - 1] + [dims[|dims| - 1]];
        match ReadScore(before.1)
        case None => None
        case Some(read) => Some((before.0[dims[|dims| - 1] := read.0], read.1))
  }

  function ReadLine(tape: Tape): (string, Tape) { if tape == [] then ("", []) else (tape[0], tape[1..]) }

  datatype Command = Continue | Back | Quit

  function CommandOf(line: string): Command {
    if line == "q" || line == "Q" then Quit else if line == "b" || line == "B" then Back else Continue
  }

  function ReadCommand(tape: Tape, tty: bool): (r: (Command, Tape))
    ensures |r.1| <= |tape|
  {
    if !tty then (Continue, tape) else (CommandOf(ReadLine(tape).0), ReadLine(tape).1)
  }

  // ----- The session -----

  datatype Outcome = Refused | AlreadyLabeled | Completed | Stopped | Starved

  function Labeled(r: Record, scores: Scores, labeler: string, notes: string): (out: Record)
    requires HasAll(scores)
    ensures out.labels.Some? && out.id == r.id
  {
    r.(labels := Some(Labels(r.id, scores, OverallPass(scores), labeler, notes)))
  }

  function Cleared(r: Record): Record { r.(labels := None) }

  /** The full answer to one card. */
  function ReadAnswer(tape: Tape): (r: Option<(Scores, string, Tape)>)
    ensures r.Some? ==> HasAll(r.value.0) && WellFormed(r.value.0) && |r.value.2| < |tape|
  {
    match ReadScores(tape, QUALITY_DIMENSIONS)
    case None => None
    case Some(read) =>
      assert forall d :: d in QUALITY_DIMENSIONS <==> d in KNOWN by {
        forall d ensures d in QUALITY_DIMENSIONS <==> d in KNOWN { KnownDimensions(d); }
      }
      Some((read.0, ReadLine(read.1).0, ReadLine(read.1).1))
  }

  function Previous(i: nat): nat { if i == 0 then 0 else i - 1 }

  /** Everything a session does: how it ends, the records it leaves in memory, and the
      successive contents it writes to the file. */
  datatype Session = Session(outcome: Outcome, records: seq<Record>, writes: seq<seq<Record>>)

  function Then(write: seq<Record>, s: Session): Session { s.(writes := [write] + s.writes) }

  function RunFrom(records: seq<Record>, index: nat, tape: Tape, tty: bool, labeler: string): Session
    decreases |tape|, |records| - index
  {
    if index >= |records| then Session(Completed, records, [])
    else if records[index].labels.Some? then RunFrom(records, index + 1, tape, tty, labeler)
    else
      match ReadAnswer(tape)
      case None => Session(Starved, records, [])
      case Some(answer) =>
        var saved := records[index := Labeled(records[index], answer.0, labeler, answer.1)];
        var (command, rest) := ReadCommand(answer.2, tty);
        match command
        case Quit => Session(Stopped, saved, [saved])
        case Continue => Then(saved, RunFrom(saved, index + 1, rest, tty, labeler))
        case Back => AfterBack(saved, index, rest, tty, labeler)
  }

  /** The session once the card at `index` has been saved and `b` was entered. */
  function AfterBack(saved: seq<Record>, index: nat, rest: Tape, tty: bool, labeler: string): Session
    requires index < |saved|
    decreases |rest|, |saved| + 1
  {
    var cleared := saved[index := Cleared(saved[index])];
    var back := Previous(index);
    if cleared[back].labels.Some? then
      var undone := cleared[back := Cleared(cleared[back])];
      Then(saved, Then(cleared, Then(undone, RunFrom(undone, back, rest, tty, labeler))))
    else
      Then(saved, Then(cleared, RunFrom(cleared, back, rest, tty, labeler)))
  }

  /** A session preceded by writes already made. */
  function Prepend(writes: seq<seq<Record>>, s: Session): Session { s.(writes := writes + s.writes) }

  lemma PrependThen(writes: seq<seq<Record>>, write: seq<Record>, s: Session)
    ensures Prepend(writes, Then(write, s)) == Prepend(writes + [write], s)
  {
    assert writes + ([write] + s.writes) == (writes + [write]) + s.writes;
  }

  lemma PrependMeans(writes: seq<seq<Record>>, s: Session)
    ensures Prepend(writes, s).outcome == s.outcome && Prepend(writes, s).records == s.records
    ensures Prepend(writes, s).writes == writes + s.writes
  {
  }

  function FirstUnlabeled(records: seq<Record>, from: nat): (i: nat)
    requires from <= |records|
    ensures from <= i <= |records| && (i < |records| ==> records[i].labels == None)
    ensures forall j | from <= j < i :: records[j].labels.Some?
    decreases |records| - from
  {
    if from == |records| || records[from].labels == None then from else FirstUnlabeled(records, from + 1)
  }

  function SessionOf(records: seq<Record>, blind: bool, tape: Tape, tty: bool, labeler: string): Session {
    if !blind then Session(Refused, records, [])
    else if FirstUnlabeled(records, 0) == |records| then Session(AlreadyLabeled, records, [])
    else RunFrom(records, FirstUnlabeled(records, 0), tape, tty, labeler)
  }

  class GoldQueue {
    var file: seq<Record>
    var records: seq<Record>
    ghost var written: seq<seq<Record>>

    /** `_write_records_atomic` */
    method Write()
      modifies this`file, this`written
      ensures file == records && written == old(written) + [records]
    {
      file := records;
      written := written + [records];
    }

    /** A labeling session over the file. `blind` is the outcome of the blindness check. */
    method LabelFile(blind: bool, tape: Tape, tty: bool, labeler: string) returns (outcome: Outcome)
      modifies this
      ensures var s := SessionOf(old(file), blind, tape, tty, labeler);
        outcome == s.outcome && records == s.records && written == old(written) + s.writes
      ensures file == records
    {
      records := file;
      if !blind { return Refused; }
      var index: nat := FirstUnlabeled(records, 0);
      if index == |records| { return AlreadyLabeled; }
      outcome := LabelFrom(index, tape, tty, labeler);
    }

    method LabelFrom(first: nat, tape: Tape, tty: bool, labeler: string) returns (outcome: Outcome)
      requires file == records && forall j | 0 <= j < first && j < |records| :: records[j].labels.Some?
      modifies this
      ensures var s := RunFrom(old(records), first, tape, tty, labeler);
        outcome == s.outcome && records == s.records && written == old(written) + s.writes
      ensures file == records
    {
      hide Labeled;
      hide Cleared;
      hide ReadAnswer;
      hide ReadCommand;
      hide HasAll;
      hide WellFormed;
      hide Prepend;
      hide Then;
      var index: nat, left := first, tape;
      ghost var whole := Prepend(written, RunFrom(records, index, left, tty, labeler));
      PrependMeans(written, RunFrom(records, index, left, tty, labeler));
      while index < |records|
        invariant file == records && |records| == |old(records)|
        invariant forall j | 0 <= j < index && j < |records| :: records[j].labels.Some?
        invariant whole == Prepend(written, RunFrom(records, index, left, tty, labeler))
        decreases |left|, |records| - index
      {
        if records[index].labels.Some? {
          index := index + 1;
          continue;
        }
        var answer := ReadAnswer(left);
        if answer == None {
          PrependMeans(written, RunFrom(records, index, left, tty, labeler));
          return Starved;
        }
        var (command, rest) := ReadCommand(answer.value.2, tty);
        ghost var before := written;
        records := records[index := Labeled(records[index], answer.value.0, labeler, answer.value.1)];
        Write();
        if command == Quit {
          PrependMeans(before, Session(Stopped, records, [records]));
          return Stopped;
        }
        left := rest;
        if command == Continue {
          index := index + 1;
          PrependThen(before, records, RunFrom(records, index, left, tty, labeler));
          continue;
        }
        index, before := UndoBack(index, before, left, tty, labeler, whole);
      }
      PrependMeans(written, RunFrom(records, index, left, tty, labeler));
      return Completed;
    }

    /** The `b` command: drop the label just saved, and the one before it. */
    method UndoBack(i: nat, ghost before: seq<seq<Record>>, left: Tape, tty: bool, labeler: string,
                    ghost whole: Session)
      returns (index: nat, ghost after: seq<seq<Record>>)
      requires i < |records| && file == records && written == before + [records]
      requires forall j | 0 <= j < i :: records[j].labels.Some?
      requires whole == Prepend(before, AfterBack(records, i, left, tty, labeler))
      modifies this
      ensures index == Previous(i) && after == written && file == records && |records| == |old(records)|
      ensures forall j | 0 <= j < index :: records[j].labels.Some?
      ensures whole == Prepend(written, RunFrom(records, index, left, tty, labeler))
    {
      hide RunFrom;
      hide Prepend;
      hide Then;
      ghost var saved := records;
      records := records[i := Cleared(records[i])];
      ghost var cleared := records;
      Write();
      index := Previous(i);
      if records[index].labels.Some? {
        records := records[index := Cleared(records[index])];
        Write();
        ghost var s := RunFrom(records, index, left, tty, labeler);
        PrependThen(before, saved, Then(cleared, Then(records, s)));
        PrependThen(before + [saved], cleared, Then(records, s));
        PrependThen(before + [saved] + [cleared], records, s);
      } else {
        ghost var s := RunFrom(records, index, left, tty, labeler);
        PrependThen(before, saved, Then(cleared, s));
        PrependThen(before + [saved], cleared, s);
      }
      after := written;
    }
  }

  // ----- What a session guarantees -----

  /** The record with its label left alone, removed, or given by the labeler. */
  predicate Touched(before: Record, after: Record, labeler: string) {
    && after.id == before.id && after.item == before.item
    && (after.labels == before.labels || after.labels == None
        || (after.labels.value.labeler == labeler && (Blank(labeler) || LabelValid(after))))
  }

  predicate OnlyLabels(before: seq<Record>, after: seq<Record>, labeler: string) {
    |after| == |before| && forall i | 0 <= i < |before| :: Touched(before[i], after[i], labeler)
  }

  lemma TouchedTrans(a: Record, b: Record, c: Record, labeler: string)
    requires Touched(a, b, labeler) && Touched(b, c, labeler)
    ensures Touched(a, c, labeler)
  {
  }

  lemma OnlyLabelsTrans(a: seq<Record>, b: seq<Record>, c: seq<Record>, labeler: string)
    requires OnlyLabels(a, b, labeler) && OnlyLabels(b, c, labeler)
    ensures OnlyLabels(a, c, labeler)
  {
    forall i | 0 <= i < |a| ensures Touched(a[i], c[i], labeler) { TouchedTrans(a[i], b[i], c[i], labeler); }
  }

  lemma LabeledTouches(r: Record, scores: Scores, labeler: string, notes: string)
    requires WellFormed(scores)
    ensures Touched(r, Labeled(r, scores, labeler, notes), labeler)
  {
    hide Blank;
  }

  lemma ClearedTouches(r: Record, labeler: string)
    ensures Touched(r, Cleared(r), labeler)
  {
  }

  predicate AllLabeled(records: seq<Record>) { forall i | 0 <= i < |records| :: records[i].labels.Some? }

  /** What holds of a session started with everything before its index labeled. */
  ghost predicate Guarantees(start: seq<Record>, s: Session, labeler: string) {
    && OnlyLabels(start, s.records, labeler)
    && (s.outcome == Completed || s.outcome == AlreadyLabeled ==> AllLabeled(s.records))
    && s.records == (if s.writes == [] then start else s.writes[|s.writes| - 1])
    && forall k | 0 <= k < |s.writes| :: OnlyLabels(start, s.writes[k], labeler)
  }

  lemma ThenGuarantees(start: seq<Record>, write: seq<Record>, s: Session, labeler: string)
    requires OnlyLabels(start, write, labeler) && Guarantees(write, s, labeler)
    ensures Guarantees(start, Then(write, s), labeler)
  {
    hide Touched;
    OnlyLabelsTrans(start, write, s.records, labeler);
    forall k | 0 <= k < |s.writes| ensures OnlyLabels(start, s.writes[k], labeler) {
      OnlyLabelsTrans(start, write, s.writes[k], labeler);
    }
  }

  lemma SameTouched(records: seq<Record>, labeler: string)
    ensures OnlyLabels(records, records, labeler)
  {
  }

  /** The update of one record. */
  lemma UpdateTouched(records: seq<Record>, i: nat, r: Record, labeler: string)
    requires i < |records| && Touched(records[i], r, labeler)
    ensures OnlyLabels(records, records[i := r], labeler)
  {
  }

  /** The records after the card at `index` has been cleared and the one before it as well. */
  function Reopened(saved: seq<Record>, index: nat): seq<Record>
    requires index < |saved|
  {
    var cleared := saved[index := Cleared(saved[index])];
    var back := Previous(index);
    if cleared[back].labels.Some? then cleared[back := Cleared(cleared[back])] else cleared
  }

  lemma BackGuarantees(records: seq<Record>, saved: seq<Record>, index: nat, rest: Tape, tty: bool, labeler: string)
    requires index < |saved| && OnlyLabels(records, saved, labeler)
    requires Guarantees(Reopened(saved, index), RunFrom(Reopened(saved, index), Previous(index), rest, tty, labeler),
               labeler)
    ensures Guarantees(records, AfterBack(saved, index, rest, tty, labeler), labeler)
  {
    hide Touched;
    hide OnlyLabels;
    hide Guarantees;
    hide RunFrom;
    var cleared := saved[index := Cleared(saved[index])];
    var back := Previous(index);
    ClearedTouches(saved[index], labeler);
    UpdateTouched(saved, index, cleared[index], labeler);
    if cleared[back].labels.Some? {
      var undone := cleared[back := Cleared(cleared[back])];
      ClearedTouches(cleared[back], labeler);
      UpdateTouched(cleared, back, undone[back], labeler);
      var s := RunFrom(undone, back, rest, tty, labeler);
      ThenGuarantees(cleared, undone, s, labeler);
      ThenGuarantees(saved, cleared, Then(undone, s), labeler);
      ThenGuarantees(records, saved, Then(cleared, Then(undone, s)), labeler);
    } else {
      var s := RunFrom(cleared, back, rest, tty, labeler);
      ThenGuarantees(saved, cleared, s, labeler);
      ThenGuarantees(records, saved, Then(cleared, s), labeler);
    }
  }

  lemma NothingWritten(records: seq<Record>, outcome: Outcome, labeler: string)
    requires outcome == Completed || outcome == AlreadyLabeled ==> AllLabeled(records)
    ensures Guarantees(records, Session(outcome, records, []), labeler)
  {
  }

  lemma OneWrite(records: seq<Record>, saved: seq<Record>, labeler: string)
    requires OnlyLabels(records, saved, labeler)
    ensures Guarantees(records, Session(Stopped, saved, [saved]), labeler)
  {
  }

  lemma {:induction false} RunGuarantees(records: seq<Record>, index: nat, tape: Tape, tty: bool, labeler: string)
    requires forall j | 0 <= j < index && j < |records| :: records[j].labels.Some?
    ensures Guarantees(records, RunFrom(records, index, tape, tty, labeler), labeler)
    decreases |tape|, |records| - index
  {
    hide Guarantees;
    hide OnlyLabels;
    hide Touched;
    hide ReadAnswer;
    hide ReadCommand;
    hide HasAll;
    hide WellFormed;
    hide Labeled;
    hide Then;
    hide AfterBack;
    if index >= |records| {
      NothingWritten(records, Completed, labeler);
    } else if records[index].labels.Some? {
      RunGuarantees(records, index + 1, tape, tty, labeler);
    } else if ReadAnswer(tape).None? {
      NothingWritten(records, Starved, labeler);
    } else {
      var answer := ReadAnswer(tape).value;
      var saved := records[index := Labeled(records[index], answer.0, labeler, answer.1)];
      LabeledTouches(records[index], answer.0, labeler, answer.1);
      UpdateTouched(records, index, saved[index], labeler);
      var (command, rest) := ReadCommand(answer.2, tty);
      if command == Quit {
        OneWrite(records, saved, labeler);
      } else if command == Continue {
        RunGuarantees(saved, index + 1, rest, tty, labeler);
        ThenGuarantees(records, saved, RunFrom(saved, index + 1, rest, tty, labeler), labeler);
      } else {
        RunGuarantees(Reopened(saved, index), Previous(index), rest, tty, labeler);
        BackGuarantees(records, saved, index, rest, tty, labeler);
      }
    }
  }

  /** A whole session changes labels only, every label it writes satisfies the validator when
      the labeler is not blank, the file always holds what was last written, and "all
      labeled" is reported only when true. */
  lemma SessionGuarantees(records: seq<Record>, blind: bool, tape: Tape, tty: bool, labeler: string)
    ensures Guarantees(records, SessionOf(records, blind, tape, tty, labeler), labeler)
  {
    hide RunFrom;
    hide Touched;
    SameTouched(records, labeler);
    RunGuarantees(records, FirstUnlabeled(records, 0), tape, tty, labeler);
  }

  lemma ClearedLabel(r: Record, scores: Scores, labeler: string, notes: string)
    requires HasAll(scores) && r.labels == None
    ensures Cleared(Labeled(r, scores, labeler, notes)) == r
  {
  }

  /** Answering a card and stepping back undoes the answer and the label before it: the
      session goes on as if started one card earlier, with that card unlabeled. */
  lemma BackUndoes(records: seq<Record>, i: nat, tape: Tape, labeler: string)
    requires i < |records| && records[i].labels == None && ReadAnswer(tape).Some?
    requires ReadCommand(ReadAnswer(tape).value.2, true).0 == Back
    ensures var rest := ReadCommand(ReadAnswer(tape).value.2, true).1;
      var again := RunFrom(records[Previous(i) := Cleared(records[Previous(i)])], Previous(i), rest, true, labeler);
      var s := RunFrom(records, i, tape, true, labeler);
      s.outcome == again.outcome && s.records == again.records
  {
    var answer := ReadAnswer(tape).value;
    ClearedLabel(records[i], answer.0, labeler, answer.1);
    var saved := records[i := Labeled(records[i], answer.0, labeler, answer.1)];
    assert saved[i := Cleared(saved[i])] == records;
    var p := Previous(i);
    assert records[p].labels == None ==> records[p := Cleared(records[p])] == records;
    hide ReadAnswer;
    hide ReadCommand;
    hide Labeled;
  }

  lemma {:induction false} SkipLabeled(records: seq<Record>, from: nat, tape: Tape, tty: bool, labeler: string)
    requires from <= |records|
    ensures RunFrom(records, from, tape, tty, labeler)
                == RunFrom(records, FirstUnlabeled(records, from), tape, tty, labeler)
    decreases |records| - from
  {
    hide ReadAnswer;
    hide AfterBack;
    if from < |records| && records[from].labels.Some? { SkipLabeled(records, from + 1, tape, tty, labeler); }
  }

  lemma {:induction false} FirstUnlabeledAfter(records: seq<Record>, from: nat)
    requires from <= |records| && forall j | 0 <= j < from :: records[j].labels.Some?
    ensures FirstUnlabeled(records, 0) == FirstUnlabeled(records, from)
  {
  }

  /** Quitting after a card and starting again on the saved file leaves the same records as
      carrying on. */
  lemma QuitThenResume(records: seq<Record>, i: nat, quitTape: Tape, goTape: Tape, later: Tape, labeler: string)
    requires i < |records| && records[i].labels == None && forall j | 0 <= j < i :: records[j].labels.Some?
    requires ReadAnswer(quitTape).Some? && ReadAnswer(goTape).Some?
    requires ReadAnswer(quitTape).value.0 == ReadAnswer(goTape).value.0
             && ReadAnswer(quitTape).value.1 == ReadAnswer(goTape).value.1
    requires ReadCommand(ReadAnswer(quitTape).value.2, true).0 == Quit
    requires ReadCommand(ReadAnswer(goTape).value.2, true) == (Continue, later)
    ensures RunFrom(records, i, quitTape, true, labeler).outcome == Stopped
    ensures SessionOf(RunFrom(records, i, quitTape, true, labeler).records, true, later, true, labeler).records
         == RunFrom(records, i, goTape, true, labeler).records
  {
    hide ReadAnswer;
    hide ReadCommand;
    hide AfterBack;
    hide FirstUnlabeled;
    var answer := ReadAnswer(goTape).value;
    var saved := records[i := Labeled(records[i], answer.0, labeler, answer.1)];
    assert RunFrom(records, i, quitTape, true, labeler).records == saved;
    FirstUnlabeledAfter(saved, i + 1);
    SkipLabeled(saved, i + 1, later, true, labeler);
    assert RunFrom(saved, |saved|, later, true, labeler).records == saved;
  }
}
