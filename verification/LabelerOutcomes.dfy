/** How a labeling session ends, as a matter of counting answers and open cards
    (eval/label_gold.py). */
module LabelerOutcomes {
  import opened Rubric
  import opened Gold
  import opened Labeler

  /** The commands entered after each complete answer; the last score prompt that the tape cannot
      answer ends the list. */
  function Commands(tape: Tape, tty: bool): seq<Command>
    decreases |tape|
  {
    match ReadAnswer(tape)
    case None => []
    case Some(answer) => var (command, rest) := ReadCommand(answer.2, tty); [command] + Commands(rest, tty)
  }

  /** The positions of the cards without a label, from an index on. */
  function OpenFrom(records: seq<Record>, index: nat): (open: seq<nat>)
    decreases |records| - index
  {
    if index >= |records| then []
    else (if records[index].labels == None then [index] else []) + OpenFrom(records, index + 1)
  }

  /** The open cards after a command on the first of them: `b` reopens the card before it, which at
      card 0 is itself. */
  function Next(open: seq<nat>, command: Command): seq<nat>
    requires open != []
  {
    match command
    case Continue => open[1..]
    case Back => if open[0] == 0 then open else [open[0] - 1] + open
    case Quit => open
  }

  /** The session as a machine over its open cards alone. */
  function Ending(open: seq<nat>, commands: seq<Command>): Outcome
    decreases |commands|
  {
    if open == [] then Completed
    else if commands == [] then Starved
    else if commands[0] == Quit then Stopped
    else Ending(Next(open, commands[0]), commands[1..])
  }

  lemma {:induction false} OpenDepends(a: seq<Record>, b: seq<Record>, index: nat)
    requires |a| == |b| && forall k | index <= k < |a| :: (a[k].labels == None) == (b[k].labels == None)
    ensures OpenFrom(a, index) == OpenFrom(b, index)
    decreases |a| - index
  {
    if index < |a| { OpenDepends(a, b, index + 1); }
  }

  /** One complete answer and command, on the machine. */
  lemma EndingOfAnswer(open: seq<nat>, tape: Tape, tty: bool)
    requires open != [] && ReadAnswer(tape).Some?
    ensures var (command, rest) := ReadCommand(ReadAnswer(tape).value.2, tty);
      Ending(open, Commands(tape, tty))
          == if command == Quit then Stopped else Ending(Next(open, command), Commands(rest, tty))
  {
    hide ReadAnswer;
    hide ReadCommand;
    var (command, rest) := ReadCommand(ReadAnswer(tape).value.2, tty);
    assert Commands(tape, tty)[0] == command && Commands(tape, tty)[1..] == Commands(rest, tty);
  }

  /** The outcome of going back is the outcome of the session on the reopened cards. */
  lemma AfterBackOutcome(saved: seq<Record>, index: nat, rest: Tape, tty: bool, labeler: string)
    requires index < |saved|
    ensures AfterBack(saved, index, rest, tty, labeler).outcome
         == RunFrom(Reopened(saved, index), Previous(index), rest, tty, labeler).outcome
  {
    hide RunFrom;
  }

  /** A session ends as the machine does, whatever scores and notes are entered. */
  lemma {:induction false} OutcomeIsEnding(records: seq<Record>, index: nat, tape: Tape, tty: bool, labeler: string)
    requires forall j | 0 <= j < index && j < |records| :: records[j].labels.Some?
    ensures RunFrom(records, index, tape, tty, labeler).outcome == Ending(OpenFrom(records, index), Commands(tape, tty))
    decreases |tape|, |records| - index
  {
    hide ReadAnswer;
    hide ReadCommand;
    hide HasAll;
    hide Labeled;
    hide AfterBack;
    hide Reopened;
    hide Next;
    if index < |records| {
      var open := OpenFrom(records, index);
      if records[index].labels.Some? {
        assert open == OpenFrom(records, index + 1);
        OutcomeIsEnding(records, index + 1, tape, tty, labeler);
      } else if ReadAnswer(tape).Some? {
        var answer := ReadAnswer(tape).value;
        var saved := records[index := Labeled(records[index], answer.0, labeler, answer.1)];
        var (command, rest) := ReadCommand(answer.2, tty);
        EndingOfAnswer(open, tape, tty);
        hide Ending;
        if command == Continue {
          ContinueCloses(records, saved, index);
          OutcomeIsEnding(saved, index + 1, rest, tty, labeler);
        } else if command == Back {
          BackReopens(records, saved, index);
          AfterBackOutcome(saved, index, rest, tty, labeler);
          ReopenedBefore(saved, index);
          OutcomeIsEnding(Reopened(saved, index), Previous(index), rest, tty, labeler);
        }
      }
    }
  }

  lemma ReopenedBefore(saved: seq<Record>, index: nat)
    requires index < |saved| && forall j | 0 <= j < index :: saved[j].labels.Some?
    ensures |Reopened(saved, index)| == |saved|
    ensures forall j | 0 <= j < Previous(index) :: Reopened(saved, index)[j].labels.Some?
  {
  }

  lemma ContinueCloses(records: seq<Record>, saved: seq<Record>, index: nat)
    requires index < |records| && records[index].labels == None
    requires |saved| == |records| && forall k | 0 <= k < |records| && k != index :: saved[k] == records[k]
    ensures OpenFrom(saved, index + 1) == Next(OpenFrom(records, index), Continue)
  {
    OpenDepends(records, saved, index + 1);
    assert OpenFrom(records, index)[1..] == OpenFrom(records, index + 1);
  }

  lemma ReopenedShape(records: seq<Record>, saved: seq<Record>, index: nat, k: nat)
    requires index < |records| && k < |records| && |saved| == |records| && (k != index ==> saved[k] == records[k])
    ensures |Reopened(saved, index)| == |records|
    ensures k != index && k != Previous(index) ==> Reopened(saved, index)[k] == records[k]
    ensures k == index || k == Previous(index) ==> Reopened(saved, index)[k].labels == None
  {
  }

  lemma BackReopens(records: seq<Record>, saved: seq<Record>, index: nat)
    requires index < |records| && records[index].labels == None && forall j | 0 <= j < index :: records[j].labels.Some?
    requires |saved| == |records| && forall k | 0 <= k < |records| && k != index :: saved[k] == records[k]
    ensures OpenFrom(Reopened(saved, index), Previous(index)) == Next(OpenFrom(records, index), Back)
  {
    var after := Reopened(saved, index);
    forall k | index <= k < |records|
      ensures |after| == |records| && ((after[k].labels == None) == (records[k].labels == None))
    {
      ReopenedShape(records, saved, index, k);
    }
    ReopenedShape(records, saved, index, Previous(index));
    hide Reopened;
    OpenDepends(records, after, index);
    OpenHead(records, index);
    OpenStep(after, Previous(index));
    hide OpenFrom;
  }

  lemma OpenHead(records: seq<Record>, index: nat)
    requires index < |records| && records[index].labels == None
    ensures OpenFrom(records, index) != [] && OpenFrom(records, index)[0] == index
  {
  }

  lemma OpenStep(records: seq<Record>, index: nat)
    requires index < |records| && records[index].labels == None
    ensures OpenFrom(records, index) == [index] + OpenFrom(records, index + 1)
  {
  }

  // ----- Counting -----

  function Continues(commands: seq<Command>): nat {
    if commands == [] then 0 else (if commands[0] == Continue then 1 else 0) + Continues(commands[1..])
  }

  /** How many times `b` was entered away from card 0, while cards were open. */
  function Undone(open: seq<nat>, commands: seq<Command>): nat
    decreases |commands|
  {
    if open == [] || commands == [] || commands[0] == Quit then 0
    else (if commands[0] == Back && open[0] > 0 then 1 else 0) + Undone(Next(open, commands[0]), commands[1..])
  }

  /** The cards still open after the first k commands: each `b` away from card 0 adds one, each
      other card kept takes one off. */
  function Left(open: seq<nat>, commands: seq<Command>, k: nat): int
    requires k <= |commands|
  {
    |open| + Undone(open, commands[..k]) - Continues(commands[..k])
  }

  /** Cards are left all the way through the first k commands. */
  predicate Lasts(open: seq<nat>, commands: seq<Command>, k: nat)
    requires k <= |commands|
  {
    forall j | 0 <= j <= k :: Left(open, commands, j) > 0
  }

  /** No `q` among the first k commands, and no card left after them. */
  predicate FinishesAt(open: seq<nat>, commands: seq<Command>, k: nat)
    requires k <= |commands|
  {
    Quit !in commands[..k] && Left(open, commands, k) == 0
  }

  /** The first `q` comes while cards are left. */
  predicate QuitsAt(open: seq<nat>, commands: seq<Command>, k: nat)
    requires k < |commands|
  {
    commands[k] == Quit && Quit !in commands[..k] && Lasts(open, commands, k)
  }

  lemma LeftStep(open: seq<nat>, commands: seq<Command>, k: nat)
    requires open != [] && 0 < k <= |commands| && commands[0] != Quit
    ensures Left(open, commands, k) == Left(Next(open, commands[0]), commands[1..], k - 1)
    ensures Quit in commands[..k] <==> Quit in commands[1..][..k - 1]
  {
    assert commands[..k][0] == commands[0] && commands[..k][1..] == commands[1..][..k - 1];
    assert commands[..k] == [commands[0]] + commands[1..][..k - 1];
  }

  lemma LeftAtStart(open: seq<nat>, commands: seq<Command>)
    ensures Left(open, commands, 0) == |open| && commands[..0] == []
  {
  }

  lemma {:induction false} EndingCounts(open: seq<nat>, commands: seq<Command>)
    ensures Ending(open, commands) == Starved <==> Quit !in commands && Lasts(open, commands, |commands|)
    ensures Ending(open, commands) == Completed <==> exists k | 0 <= k <= |commands| :: FinishesAt(open, commands, k)
    ensures Ending(open, commands) == Stopped <==> exists k | 0 <= k < |commands| :: QuitsAt(open, commands, k)
    decreases |commands|
  {
    LeftAtStart(open, commands);
    if open == [] {
      assert FinishesAt(open, commands, 0);
    } else if commands != [] && commands[0] == Quit {
      assert QuitsAt(open, commands, 0);
      assert forall k | 0 < k <= |commands| :: commands[..k][0] == Quit;
    } else if commands != [] {
      var next, rest := Next(open, commands[0]), commands[1..];
      EndingCounts(next, rest);
      EndingStep(open, commands);
    }
  }

  /** The three conditions, one command on. */
  lemma EndingStep(open: seq<nat>, commands: seq<Command>)
    requires open != [] && commands != [] && commands[0] != Quit
    ensures var next, rest := Next(open, commands[0]), commands[1..];
      && (Quit in commands <==> Quit in rest)
      && (Lasts(open, commands, |commands|) <==> Lasts(next, rest, |rest|))
      && ((exists k | 0 <= k <= |commands| :: FinishesAt(open, commands, k)) <==>
          exists k | 0 <= k <= |rest| :: FinishesAt(next, rest, k))
      && ((exists k | 0 <= k < |commands| :: QuitsAt(open, commands, k)) <==>
          exists k | 0 <= k < |rest| :: QuitsAt(next, rest, k))
  {
    var next, rest := Next(open, commands[0]), commands[1..];
    LeftAtStart(open, commands);
    assert commands == [commands[0]] + rest;
    forall k | 0 < k <= |commands|
      ensures FinishesAt(open, commands, k) <==> FinishesAt(next, rest, k - 1)
      ensures Lasts(open, commands, k) <==> Lasts(next, rest, k - 1)
      ensures k < |commands| ==> (QuitsAt(open, commands, k) <==> QuitsAt(next, rest, k - 1))
    {
      LeftStep(open, commands, k);
      LastsStep(open, commands, k);
    }
    hide FinishesAt;
    hide QuitsAt;
    hide Lasts;
    if k :| 0 <= k <= |rest| && FinishesAt(next, rest, k) { assert FinishesAt(open, commands, k + 1); }
    if k :| 0 <= k < |rest| && QuitsAt(next, rest, k) { assert QuitsAt(open, commands, k + 1); }
  }

  lemma LastsStep(open: seq<nat>, commands: seq<Command>, k: nat)
    requires open != [] && 0 < k <= |commands| && commands[0] != Quit
    ensures Lasts(open, commands, k) <==> Lasts(Next(open, commands[0]), commands[1..], k - 1)
  {
    var next, rest := Next(open, commands[0]), commands[1..];
    LeftAtStart(open, commands);
    forall j | 0 < j <= k ensures Left(open, commands, j) == Left(next, rest, j - 1) { LeftStep(open, commands, j); }
    hide Left;
    if Lasts(open, commands, k) {
      forall j | 0 <= j <= k - 1 ensures Left(next, rest, j) > 0 { assert Left(open, commands, j + 1) > 0; }
    }
  }

  // ----- How sessions end -----

  lemma {:induction false} OpenFromFirst(records: seq<Record>, from: nat)
    requires from <= |records|
    ensures OpenFrom(records, from) == OpenFrom(records, FirstUnlabeled(records, from))
    ensures OpenFrom(records, from) == [] <==> FirstUnlabeled(records, from) == |records|
    decreases |records| - from
  {
    if from < |records| && records[from].labels.Some? {
      OpenFromFirst(records, from + 1);
      assert OpenFrom(records, from) == OpenFrom(records, from + 1);
    }
  }

  /** On a blind file with open cards a session waits for input for ever exactly when no `q` is
      entered and a card is left after every command; it completes exactly when no card is left
      at some point before any `q`; it stops exactly when a `q` comes while cards are left. */
  lemma SessionEnds(records: seq<Record>, tape: Tape, tty: bool, labeler: string)
    ensures var outcome := SessionOf(records, true, tape, tty, labeler).outcome;
      var open, commands := OpenFrom(records, 0), Commands(tape, tty);
      && (outcome == AlreadyLabeled <==> open == [])
      && (open != [] ==>
            && (outcome == Starved <==> Quit !in commands && Lasts(open, commands, |commands|))
            && (outcome == Completed <==> exists k | 0 <= k <= |commands| :: FinishesAt(open, commands, k))
            && (outcome == Stopped <==> exists k | 0 <= k < |commands| :: QuitsAt(open, commands, k)))
  {
    var first := FirstUnlabeled(records, 0);
    OpenFromFirst(records, 0);
    hide Lasts;
    hide FinishesAt;
    hide QuitsAt;
    EndingCounts(OpenFrom(records, 0), Commands(tape, tty));
    OutcomeIsEnding(records, first, tape, tty, labeler);
    NeverAlready(OpenFrom(records, first), Commands(tape, tty));
  }

  lemma {:induction false} NeverAlready(open: seq<nat>, commands: seq<Command>)
    ensures Ending(open, commands) != AlreadyLabeled
    decreases |commands|
  {
    if open != [] && commands != [] && commands[0] != Quit { NeverAlready(Next(open, commands[0]), commands[1..]); }
  }

  /** Away from a terminal no command is read. */
  lemma {:induction false} AllContinue(tape: Tape)
    ensures forall c | c in Commands(tape, false) :: c == Continue
    decreases |tape|
  {
    hide ReadAnswer;
    if ReadAnswer(tape).Some? { AllContinue(ReadAnswer(tape).value.2); }
  }

  lemma {:induction false} OnlyContinues(open: seq<nat>, commands: seq<Command>)
    requires forall c | c in commands :: c == Continue
    ensures Ending(open, commands) == if |commands| < |open| then Starved else Completed
    decreases |commands|
  {
    if open != [] && commands != [] {
      assert commands[0] in commands && forall c | c in commands[1..] :: c in commands;
      OnlyContinues(open[1..], commands[1..]);
    }
  }

  /** Away from a terminal a session with open cards completes exactly when the input holds a
      complete answer for each, and otherwise never returns. */
  lemma PipedSessionEnds(records: seq<Record>, tape: Tape, labeler: string)
    requires OpenFrom(records, 0) != []
    ensures SessionOf(records, true, tape, false, labeler).outcome ==
            if |Commands(tape, false)| < |OpenFrom(records, 0)| then Starved else Completed
  {
    var first := FirstUnlabeled(records, 0);
    OpenFromFirst(records, 0);
    OutcomeIsEnding(records, first, tape, false, labeler);
    AllContinue(tape);
    OnlyContinues(OpenFrom(records, first), Commands(tape, false));
  }

  /** No input at all: any session with an open card never returns, as on a single such record. */
  lemma EmptyTapeStarves(records: seq<Record>, tty: bool, labeler: string)
    requires OpenFrom(records, 0) != []
    ensures SessionOf(records, true, [], tty, labeler).outcome == Starved
  {
    var first := FirstUnlabeled(records, 0);
    OpenFromFirst(records, 0);
    NoAnswer(QUALITY_DIMENSIONS);
  }

  lemma {:induction false} NoAnswer(dims: seq<Dim>)
    ensures dims != [] ==> ReadScores([], dims) == None
  {
    if |dims| > 1 { NoAnswer(dims[..|dims| - 1]); }
  }

  lemma OneCardStarves(r: Record, labeler: string)
    requires r.labels == None
    ensures SessionOf([r], true, [], false, labeler).outcome == SessionOf([r], true, [], true, labeler).outcome
                == Starved
  {
    assert OpenFrom([r], 0) == [0] + OpenFrom([r], 1);
    EmptyTapeStarves([r], false, labeler);
    EmptyTapeStarves([r], true, labeler);
  }
}
