/** The published rules baseline over a customer book, and the detector of forbidden
    consequences it is held to (eval/customer_outcome_comparison.py). */
module Policy {
  import opened Rubric
  import opened Sequencing

  /** A calendar day; the day read from a field is absent when the text is not a date. */
  type Day = int

  /** `email` is already folded to lower case. */
  datatype Contact = Contact(id: Id, account: Id, email: string, consents: bool)
  datatype Ticket = Ticket(id: Id, account: Id, status: string, namesBlocker: bool)
  datatype Cta = Cta(id: Id, account: Id, status: string, priority: string)
  datatype Plan = Plan(account: Id, status: string, objectives: seq<string>, target: Option<Day>)
  datatype Milestone = Milestone(account: Id, name: string, expectedBy: Option<Day>, achievedAt: Option<Day>)
  datatype Signal = Signal(account: Id, observedAt: Option<Day>)

  datatype Book = Book(contacts: seq<Contact>, cases: seq<Ticket>, ctas: seq<Cta>, plans: seq<Plan>,
                       milestones: seq<Milestone>, signals: seq<Signal>)

  // ----- The read seams: an account's own rows -----

  function OwnContact(account: Id): Contact -> bool { (x: Contact) => x.account == account }

  function OwnTicket(account: Id): Ticket -> bool { (x: Ticket) => x.account == account }

  function OwnCta(account: Id): Cta -> bool { (x: Cta) => x.account == account }

  function OwnPlan(account: Id): Plan -> bool { (x: Plan) => x.account == account }

  function OwnMilestone(account: Id): Milestone -> bool { (x: Milestone) => x.account == account }

  function OwnSignal(account: Id): Signal -> bool { (x: Signal) => x.account == account }

  function Contacts(b: Book, account: Id): seq<Contact> { Select(b.contacts, OwnContact(account)) }

  function Cases(b: Book, account: Id): seq<Ticket> { Select(b.cases, OwnTicket(account)) }

  function Ctas(b: Book, account: Id): seq<Cta> { Select(b.ctas, OwnCta(account)) }

  function Plans(b: Book, account: Id): seq<Plan> { Select(b.plans, OwnPlan(account)) }

  function Milestones(b: Book, account: Id): seq<Milestone> { Select(b.milestones, OwnMilestone(account)) }

  function Signals(b: Book, account: Id): seq<Signal> { Select(b.signals, OwnSignal(account)) }

  /** An email held by contacts of two different accounts. */
  predicate Ambiguous(b: Book, email: string) {
    email != "" && exists i, j | 0 <= i < j < |b.contacts| ::
      b.contacts[i].email == email && b.contacts[j].email == email && b.contacts[i].account != b.contacts[j].account
  }

  // ----- The state of an account's objectives -----

  datatype State = NoPlan | Verified | ClaimedComplete | Overdue | InProgress

  function Dated(plans: seq<Plan>): seq<(Plan, string)> {
    if plans == [] then []
    else Dated(plans[..|plans| - 1]) + OfPlan(plans[|plans| - 1], |plans[|plans| - 1].objectives|)
  }

  function OfPlan(p: Plan, n: nat): (pairs: seq<(Plan, string)>)
    requires n <= |p.objectives|
    ensures forall x :: x in pairs <==> x.0 == p && x.1 in p.objectives[..n]
  {
    if n == 0 then []
    else
      assert p.objectives[..n] == p.objectives[..n - 1] + [p.objectives[n - 1]];
      OfPlan(p, n - 1) + [(p, p.objectives[n - 1])]
  }

  lemma {:induction false} DatedMembers(plans: seq<Plan>, p: Plan, o: string)
    ensures (p, o) in Dated(plans) <==> p in plans && o in p.objectives
  {
    if plans != [] {
      var init, last := plans[..|plans| - 1], plans[|plans| - 1];
      assert plans == init + [last];
      DatedMembers(init, p, o);
      assert last.objectives[..|last.objectives|] == last.objectives;
    }
  }

  /** Some milestone of that exact name was achieved by the day. */
  predicate Achieved(ms: seq<Milestone>, o: string, today: Day) {
    exists m | m in ms :: m.name == o && m.achievedAt.Some? && m.achievedAt.value <= today
  }

  predicate Claims(p: Plan) { p.status == "complete" || p.status == "achieved" || p.status == "realized" }

  predicate Past(d: Option<Day>, today: Day) { d.Some? && d.value < today }

  /** The plan's deadline, or a deadline of a milestone of the objective's name, has passed. */
  predicate Late(p: Plan, o: string, ms: seq<Milestone>, today: Day) {
    Past(p.target, today) || exists m | m in ms :: m.name == o && Past(m.expectedBy, today)
  }

  predicate Unresolved(plans: seq<Plan>, ms: seq<Milestone>, today: Day, p: Plan, o: string) {
    p in plans && o in p.objectives && !Achieved(ms, o, today)
  }

  ghost predicate AllClaimed(plans: seq<Plan>, ms: seq<Milestone>, today: Day) {
    forall p, o | Unresolved(plans, ms, today, p, o) :: Claims(p)
  }

  ghost predicate SomeLate(plans: seq<Plan>, ms: seq<Milestone>, today: Day) {
    exists p, o | Unresolved(plans, ms, today, p, o) :: Late(p, o, ms, today)
  }

  ghost predicate Settled(plans: seq<Plan>, ms: seq<Milestone>, today: Day) {
    forall p, o :: !Unresolved(plans, ms, today, p, o)
  }

  ghost predicate Unplanned(plans: seq<Plan>) { forall p | p in plans :: p.objectives == [] }

  lemma {:induction false} DatedNone(plans: seq<Plan>)
    ensures Dated(plans) == [] <==> Unplanned(plans)
  {
    if plans != [] {
      var init, last := plans[..|plans| - 1], plans[|plans| - 1];
      assert plans == init + [last];
      DatedNone(init);
      assert last.objectives != [] ==> (last, last.objectives[0]) in OfPlan(last, |last.objectives|);
    }
  }

  /** The five states in order of priority, each said of the account as a whole. */
  ghost predicate IsState(s: State, plans: seq<Plan>, ms: seq<Milestone>, today: Day) {
    s == if Unplanned(plans) then NoPlan
         else if Settled(plans, ms, today) then Verified
         else if AllClaimed(plans, ms, today) then ClaimedComplete
         else if SomeLate(plans, ms, today) then Overdue
         else InProgress
  }

  function StateOf(plans: seq<Plan>, ms: seq<Milestone>, today: Day): (s: State)
    ensures IsState(s, plans, ms, today)
  {
    var pairs := Dated(plans);
    assert forall p, o :: (p, o) in pairs <==> p in plans && o in p.objectives by {
      forall p, o ensures (p, o) in pairs <==> p in plans && o in p.objectives { DatedMembers(plans, p, o); }
    }
    var unresolved := Select(pairs, (x: (Plan, string)) => !Achieved(ms, x.1, today));
    assert forall p, o :: (p, o) in unresolved <==> Unresolved(plans, ms, today, p, o);
    DatedNone(plans);
    if pairs == [] then NoPlan
    else
      assert pairs[0] in pairs && (pairs[0].0, pairs[0].1) in pairs;
      if unresolved == [] then Verified
      else
        assert unresolved[0] in unresolved && (unresolved[0].0, unresolved[0].1) in unresolved;
        if forall x | x in unresolved :: Claims(x.0) then ClaimedComplete
        else if exists x | x in unresolved :: Late(x.0, x.1, ms, today) then Overdue
        else InProgress
  }

  /** `_objective_state`, loop by loop. */
  method ObjectiveState(plans: seq<Plan>, milestones: seq<Milestone>, today: Day) returns (state: State)
    ensures state == StateOf(plans, milestones, today)
  {
    hide Dated;
    hide StateOf;
    hide Achieved;
    hide Claims;
    hide Late;
    hide Unplanned;
    var objectives := Dated(plans);
    DatedNone(plans);
    if objectives == [] { return NoPlan; }
    var unresolved := Outstanding(objectives, milestones, today);
    forall p, o ensures (p, o) in unresolved <==> Unresolved(plans, milestones, today, p, o) {
      DatedMembers(plans, p, o);
    }
    if unresolved == [] { return Verified; }
    assert (unresolved[0].0, unresolved[0].1) in unresolved;
    if forall x | x in unresolved :: Claims(x.0) { return ClaimedComplete; }
    for i := 0 to |unresolved|
      invariant forall p, o | (p, o) in unresolved[..i] :: !Late(p, o, milestones, today)
    {
      assert unresolved[..i + 1] == unresolved[..i] + [unresolved[i]];
      if Late(unresolved[i].0, unresolved[i].1, milestones, today) {
        assert (unresolved[i].0, unresolved[i].1) in unresolved;
        return Overdue;
      }
    }
    assert unresolved[..|unresolved|] == unresolved;
    return InProgress;
  }

  /** The objectives no milestone resolves, in order. */
  method Outstanding(objectives: seq<(Plan, string)>, milestones: seq<Milestone>, today: Day)
    returns (unresolved: seq<(Plan, string)>)
    ensures forall p, o :: (p, o) in unresolved <==> (p, o) in objectives && !Achieved(milestones, o, today)
  {
    hide Achieved;
    unresolved := [];
    for i := 0 to |objectives|
      invariant forall p, o :: (p, o) in unresolved <==> (p, o) in objectives[..i] && !Achieved(milestones, o, today)
    {
      assert objectives[..i + 1] == objectives[..i] + [objectives[i]];
      if !Achieved(milestones, objectives[i].1, today) { unresolved := unresolved + [objectives[i]]; }
    }
    assert objectives[..|objectives|] == objectives;
  }

  // ----- The decision -----

  datatype Verdict = Propose | Review | Escalate | Hold

  datatype Reason = SharedIdentity | BlockerCase | HighPriorityCta | VerifiedWithOpenItems | VerifiedClear
                  | ClaimUnconfirmed | OverdueUnresolved | OverdueWithoutConsent | ProgressWithoutTelemetry
                  | ProgressWithTelemetry | NoPlanOpenItems | NoPlanClear

  datatype Decision = Decision(account: Id, verdict: Verdict, reason: Reason, evidence: seq<Id>,
                               recipient: Option<Id>, purpose: Option<string>)

  const OUTCOME_VERIFICATION := "outcome_verification"
  const TELEMETRY_DAYS := 30

  predicate OpenCase(c: Ticket) { c.status == "Open" }

  predicate OpenCta(c: Cta) { c.status == "open" }

  predicate Blocker(c: Ticket) { c.status == "Open" && c.namesBlocker }

  predicate HighCta(c: Cta) { c.status == "open" && c.priority == "High" }

  predicate Recent(s: Signal, today: Day) { s.observedAt.Some? && 0 <= today - s.observedAt.value <= TELEMETRY_DAYS }

  predicate Consents(c: Contact) { c.consents }

  function RecentOn(today: Day): Signal -> bool { (s: Signal) => Recent(s, today) }

  function Consenting(b: Book, account: Id): seq<Contact> { Select(Contacts(b, account), Consents) }

  function OpenCases(b: Book, account: Id): seq<Ticket> { Select(Cases(b, account), OpenCase) }

  function OpenCtas(b: Book, account: Id): seq<Cta> { Select(Ctas(b, account), OpenCta) }

  function HighCtas(b: Book, account: Id): seq<Cta> { Select(Ctas(b, account), HighCta) }

  function Telemetry(b: Book, account: Id, today: Day): seq<Signal> { Select(Signals(b, account), RecentOn(today)) }

  predicate HasBlocker(b: Book, account: Id) { exists c | c in Cases(b, account) :: Blocker(c) }

  predicate HasHighCta(b: Book, account: Id) { exists c | c in Ctas(b, account) :: HighCta(c) }

  function Objective(b: Book, account: Id, today: Day): State {
    StateOf(Plans(b, account), Milestones(b, account), today)
  }

  function Plainly(account: Id, verdict: Verdict, reason: Reason): Decision {
    Decision(account, verdict, reason, [], None, None)
  }

  function TicketId(c: Ticket): Id { c.id }

  function CtaId(c: Cta): Id { c.id }

  function IdsBy<A(!new)>(xs: seq<A>, idOf: A -> Id): (ids: seq<Id>)
    ensures forall id :: id in ids <==> exists x | x in xs :: idOf(x) == id
  {
    var ids := seq(|xs|, i requires 0 <= i < |xs| => idOf(xs[i]));
    assert forall i | 0 <= i < |xs| :: ids[i] in ids && xs[i] in xs;
    ids
  }

  /** `baseline_decide` */
  function BaselineDecide(b: Book, account: Id, today: Day, ambiguous: bool): Decision {
    DecideOn(b, account, today, ambiguous, Objective(b, account, today))
  }

  /** The rest of the decision once the state of the objectives is known. */
  function DecideOn(b: Book, account: Id, today: Day, ambiguous: bool, state: State): Decision {
    var consenting := Consenting(b, account);
    if ambiguous then Plainly(account, Escalate, SharedIdentity)
    else if HasBlocker(b, account) then
      Decision(account, Escalate, BlockerCase, IdsBy(OpenCases(b, account), TicketId), None, None)
    else if HasHighCta(b, account) then
      Decision(account, Escalate, HighPriorityCta, IdsBy(HighCtas(b, account), CtaId), None, None)
    else
      var openItems := OpenCases(b, account) != [] || OpenCtas(b, account) != [];
      match state
      case Verified =>
        if openItems then Plainly(account, Review, VerifiedWithOpenItems) else Plainly(account, Hold, VerifiedClear)
      case ClaimedComplete => Plainly(account, Review, ClaimUnconfirmed)
      case Overdue =>
        if consenting != []
        then Decision(account, Propose, OverdueUnresolved, [], Some(consenting[0].id), Some(OUTCOME_VERIFICATION))
        else Plainly(account, Review, OverdueWithoutConsent)
      case InProgress =>
        if Telemetry(b, account, today) == [] then Plainly(account, Review, ProgressWithoutTelemetry)
        else Plainly(account, Hold, ProgressWithTelemetry)
      case NoPlan =>
        if openItems then Plainly(account, Review, NoPlanOpenItems) else Plainly(account, Hold, NoPlanClear)
  }

  predicate Escalates(b: Book, account: Id, ambiguous: bool) {
    ambiguous || HasBlocker(b, account) || HasHighCta(b, account)
  }

  predicate NothingOpen(b: Book, account: Id) { OpenCases(b, account) == [] && OpenCtas(b, account) == [] }

  /** When each verdict is reached, and whom it contacts. */
  lemma Outcomes(b: Book, account: Id, today: Day, ambiguous: bool)
    ensures var d, s, up := BaselineDecide(b, account, today, ambiguous), Objective(b, account, today),
              Escalates(b, account, ambiguous);
            && (d.verdict == Escalate <==> up)
            && (d.verdict == Propose <==> !up && s == Overdue && Consenting(b, account) != [])
            && (d.verdict == Hold <==> !up && (((s == Verified || s == NoPlan) && NothingOpen(b, account))
                                               || (s == InProgress && Telemetry(b, account, today) != [])))
            && (d.verdict == Propose ==>
                d.recipient == Some(Consenting(b, account)[0].id) && d.purpose == Some(OUTCOME_VERIFICATION))
            && (d.verdict != Propose ==> d.recipient == None && d.purpose == None)
  {
    hide Objective;
    hide OpenCases;
    hide OpenCtas;
    hide HighCtas;
    hide Consenting;
    hide Telemetry;
    hide HasBlocker;
    hide HasHighCta;
  }

  /** A shared identity is given as the reason exactly when it was found. */
  lemma SharedReason(b: Book, account: Id, today: Day, ambiguous: bool)
    ensures BaselineDecide(b, account, today, ambiguous).reason == SharedIdentity <==> ambiguous
  {
    hide Objective;
    hide OpenCases;
    hide OpenCtas;
    hide HighCtas;
    hide Consenting;
    hide Telemetry;
    hide HasBlocker;
    hide HasHighCta;
  }

  /** What an escalation cites: nothing for a shared identity, every open case for a blocker, the
      open high-priority CTAs otherwise; no other verdict cites anything. */
  lemma Evidence(b: Book, account: Id, today: Day, ambiguous: bool, id: Id)
    ensures id in BaselineDecide(b, account, today, ambiguous).evidence <==>
              !ambiguous && if HasBlocker(b, account)
                            then exists c | c in b.cases :: c.account == account && OpenCase(c) && c.id == id
                            else exists c | c in b.ctas :: c.account == account && HighCta(c) && c.id == id
  {
    EvidenceLists(b, account, today, ambiguous);
    OpenParts(b, account);
    var open, high := OpenCases(b, account), HighCtas(b, account);
    assert forall c :: c in open <==> c in b.cases && c.account == account && OpenCase(c);
    assert forall c :: c in high <==> c in b.ctas && c.account == account && HighCta(c);
    assert forall c: Ticket, d: Cta :: TicketId(c) == c.id && CtaId(d) == d.id;
    hide *;
  }

  lemma EvidenceLists(b: Book, account: Id, today: Day, ambiguous: bool)
    ensures BaselineDecide(b, account, today, ambiguous).evidence ==
            if ambiguous then []
            else if HasBlocker(b, account) then IdsBy(OpenCases(b, account), TicketId)
            else if HasHighCta(b, account) then IdsBy(HighCtas(b, account), CtaId)
            else []
  {
    hide Objective;
    hide OpenCases;
    hide OpenCtas;
    hide HighCtas;
    hide Consenting;
    hide Telemetry;
    hide HasBlocker;
    hide HasHighCta;
  }

  // ----- What a decision depends on -----

  predicate Named(plans: seq<Plan>, o: string) { exists p | p in plans :: o in p.objectives }

  function NamedIn(plans: seq<Plan>): Milestone -> bool { (m: Milestone) => Named(plans, m.name) }

  /** The account's own consenting contacts, open items, plans, matching milestones and
      recent signals; everything else is dropped. */
  function Relevant(b: Book, account: Id, today: Day): Book {
    var plans := Plans(b, account);
    Book(Consenting(b, account), OpenCases(b, account), OpenCtas(b, account), plans,
         Select(Milestones(b, account), NamedIn(plans)), Telemetry(b, account, today))
  }

  lemma StateNeedsNamed(plans: seq<Plan>, ms: seq<Milestone>, few: seq<Milestone>, today: Day)
    requires forall m: Milestone | Named(plans, m.name) :: m in ms <==> m in few
    ensures StateOf(plans, ms, today) == StateOf(plans, few, today)
  {
    forall p, o | p in plans && o in p.objectives
      ensures Achieved(ms, o, today) == Achieved(few, o, today) && Late(p, o, ms, today) == Late(p, o, few, today)
    {
      assert Named(plans, o);
    }
    hide StateOf;
    hide Achieved;
    hide Late;
    assert forall p, o :: Unresolved(plans, ms, today, p, o) == Unresolved(plans, few, today, p, o);
  }

  /** The parts of the book that a decision is computed from. */
  ghost predicate SameParts(b: Book, c: Book, account: Id, today: Day) {
    && Consenting(b, account) == Consenting(c, account)
    && OpenCases(b, account) == OpenCases(c, account) && OpenCtas(b, account) == OpenCtas(c, account)
    && HighCtas(b, account) == HighCtas(c, account) && Telemetry(b, account, today) == Telemetry(c, account, today)
    && Objective(b, account, today) == Objective(c, account, today)
  }

  lemma SameDecision(b: Book, c: Book, account: Id, today: Day, ambiguous: bool)
    requires SameParts(b, c, account, today)
    ensures BaselineDecide(b, account, today, ambiguous) == BaselineDecide(c, account, today, ambiguous)
  {
    OpenParts(b, account);
    OpenParts(c, account);
    hide Objective;
    hide OpenCases;
    hide OpenCtas;
    hide HighCtas;
    hide Consenting;
    hide Telemetry;
    hide HasBlocker;
    hide HasHighCta;
  }

  lemma OpenParts(b: Book, account: Id)
    ensures HasBlocker(b, account) <==> exists c | c in OpenCases(b, account) :: Blocker(c)
    ensures HasHighCta(b, account) <==> HighCtas(b, account) != []
  {
    if HighCtas(b, account) != [] { assert HighCtas(b, account)[0] in HighCtas(b, account); }
    forall c | c in Cases(b, account) && Blocker(c) ensures c in OpenCases(b, account) { }
    forall c | c in Ctas(b, account) && HighCta(c) ensures c in HighCtas(b, account) { }
  }

  /** The decision, evidence and recipient included, is a function of the relevant rows only:
      closed cases and CTAs, other accounts, stale telemetry and stray milestones never count. */
  lemma DecisionNeedsRelevant(b: Book, account: Id, today: Day, ambiguous: bool)
    ensures BaselineDecide(b, account, today, ambiguous)
                == BaselineDecide(Relevant(b, account, today), account, today, ambiguous)
  {
    var r, plans := Relevant(b, account, today), Plans(b, account);
    hide StateOf;
    hide Select;
    hide BaselineDecide;
    SelectAll(b.plans, OwnPlan(account));
    StateNeedsNamed(plans, Milestones(b, account), Milestones(r, account), today);
    SelectNarrower(Contacts(b, account), Consents, OwnContact(account), Consents);
    SelectNarrower(Cases(b, account), OpenCase, OwnTicket(account), OpenCase);
    SelectNarrower(Ctas(b, account), OpenCta, OwnCta(account), OpenCta);
    SelectNarrower(Ctas(b, account), OpenCta, OwnCta(account), HighCta);
    SelectNarrower(Signals(b, account), RecentOn(today), OwnSignal(account), RecentOn(today));
    SameDecision(b, r, account, today, ambiguous);
  }

  lemma SelectAll<A(!new)>(xs: seq<A>, p: A -> bool)
    ensures Select(Select(xs, p), p) == Select(xs, p)
  {
    SelectSelect(xs, p, p, p);
  }

  lemma SelectNarrower<A(!new)>(xs: seq<A>, kept: A -> bool, own: A -> bool, q: A -> bool)
    requires forall x | x in xs :: own(x) && (q(x) ==> kept(x))
    ensures Select(Select(Select(xs, kept), own), q) == Select(xs, q)
  {
    SelectSelect(xs, kept, own, kept);
    SelectSelect(xs, kept, q, q);
  }

  function Inserted<A>(xs: seq<A>, i: nat, x: A): seq<A>
    requires i <= |xs|
  {
    xs[..i] + [x] + xs[i..]
  }

  lemma SelectOne<A(!new)>(x: A, p: A -> bool)
    requires !p(x)
    ensures Select([x], p) == []
  {
  }

  lemma SelectDropped<A(!new)>(before: seq<A>, x: A, rest: seq<A>, p: A -> bool)
    requires !p(x)
    ensures Select(before + [x] + rest, p) == Select(before + rest, p)
  {
    hide Select;
    SelectOne(x, p);
    SelectConcat(before + [x], rest, p);
    SelectConcat(before, [x], p);
    SelectConcat(before, rest, p);
  }

  function Both<A>(p: A -> bool, q: A -> bool): A -> bool { x => p(x) && q(x) }

  lemma SelectInserted<A(!new)>(xs: seq<A>, i: nat, x: A, own: A -> bool, p: A -> bool)
    requires i <= |xs| && !p(x)
    ensures Select(Select(Inserted(xs, i, x), own), p) == Select(Select(xs, own), p)
  {
    hide Select;
    SelectSelect(Inserted(xs, i, x), own, p, Both(own, p));
    SelectSelect(xs, own, p, Both(own, p));
    SelectDropped(xs[..i], x, xs[i..], Both(own, p));
    assert xs[..i] + xs[i..] == xs;
  }

  /** Adding a closed case or CTA anywhere in the book leaves every decision as it was. */
  lemma ClosedItemsIgnored(b: Book, i: nat, c: Ticket, j: nat, t: Cta, account: Id, today: Day, ambiguous: bool)
    requires i <= |b.cases| && j <= |b.ctas| && !OpenCase(c) && !OpenCta(t)
    ensures BaselineDecide(b.(cases := Inserted(b.cases, i, c), ctas := Inserted(b.ctas, j, t)), account, today,
              ambiguous)
            == BaselineDecide(b, account, today, ambiguous)
  {
    hide Select;
    hide BaselineDecide;
    SelectInserted(b.cases, i, c, OwnTicket(account), OpenCase);
    SelectInserted(b.ctas, j, t, OwnCta(account), OpenCta);
    SelectInserted(b.ctas, j, t, OwnCta(account), HighCta);
    SameDecision(b.(cases := Inserted(b.cases, i, c), ctas := Inserted(b.ctas, j, t)), b, account, today, ambiguous);
  }

  /** More open items, everything else equal. */
  ghost predicate MoreOpen(b: Book, c: Book, account: Id) {
    && c.contacts == b.contacts && c.plans == b.plans && c.milestones == b.milestones && c.signals == b.signals
    && (forall x | x in OpenCases(b, account) :: x in OpenCases(c, account))
    && (forall x | x in OpenCtas(b, account) :: x in OpenCtas(c, account))
  }

  lemma OpenAndHigh(b: Book, account: Id)
    ensures HasBlocker(b, account) <==> exists c | c in OpenCases(b, account) :: Blocker(c)
    ensures HasHighCta(b, account) <==> exists c | c in OpenCtas(b, account) :: HighCta(c)
  {
    OpenParts(b, account);
    forall c | c in Ctas(b, account) && HighCta(c) ensures c in OpenCtas(b, account) { }
  }

  lemma OpenGrows(b: Book, c: Book, account: Id)
    requires MoreOpen(b, c, account)
    ensures NothingOpen(c, account) ==> NothingOpen(b, account)
    ensures HasBlocker(b, account) ==> HasBlocker(c, account)
    ensures HasHighCta(b, account) ==> HasHighCta(c, account)
  {
    OpenAndHigh(b, account);
    OpenAndHigh(c, account);
    assert OpenCases(b, account) != [] ==> OpenCases(b, account)[0] in OpenCases(c, account);
    assert OpenCtas(b, account) != [] ==> OpenCtas(b, account)[0] in OpenCtas(c, account);
  }

  /** Opening items can only turn a decision into an escalation, or a hold into a review. */
  lemma OpenItemsOnlyRaise(b: Book, c: Book, account: Id, today: Day, ambiguous: bool)
    requires MoreOpen(b, c, account)
    ensures var before, after := BaselineDecide(b, account, today, ambiguous),
              BaselineDecide(c, account, today, ambiguous);
            || (after.verdict == before.verdict && after.recipient == before.recipient
                && after.purpose == before.purpose)
            || after.verdict == Escalate
            || (before.verdict == Hold && after.verdict == Review)
  {
    Outcomes(b, account, today, ambiguous);
    Outcomes(c, account, today, ambiguous);
    OpenGrows(b, c, account);
    assert Consenting(b, account) == Consenting(c, account)
           && Telemetry(b, account, today) == Telemetry(c, account, today)
        && Objective(b, account, today) == Objective(c, account, today);
    hide *;
  }

  // ----- Decisions over time -----

  /** The states an account with fixed facts can be in later on. */
  predicate MayBecome(now: State, later: State) {
    match now
    case NoPlan => later == NoPlan
    case Verified => later == Verified
    case ClaimedComplete => later == ClaimedComplete || later == Verified
    case Overdue => later != NoPlan
    case InProgress => later != NoPlan
  }

  /** No milestone is achieved in the days after `now` up to and including `later`. */
  predicate NothingAchieved(ms: seq<Milestone>, now: Day, later: Day) {
    forall m | m in ms && m.achievedAt.Some? :: !(now < m.achievedAt.value <= later)
  }

  lemma UnresolvedShrinks(plans: seq<Plan>, ms: seq<Milestone>, now: Day, later: Day, p: Plan, o: string)
    requires now <= later
    ensures Unresolved(plans, ms, later, p, o) ==> Unresolved(plans, ms, now, p, o)
    ensures NothingAchieved(ms, now, later) && Unresolved(plans, ms, now, p, o) ==> Unresolved(plans, ms, later, p, o)
    ensures Late(p, o, ms, now) ==> Late(p, o, ms, later)
  {
  }

  /** How the conditions behind the states move as time passes. */
  lemma ConditionsOverTime(plans: seq<Plan>, ms: seq<Milestone>, now: Day, later: Day)
    requires now <= later
    ensures Settled(plans, ms, now) ==> Settled(plans, ms, later)
    ensures AllClaimed(plans, ms, now) ==> AllClaimed(plans, ms, later)
    ensures NothingAchieved(ms, now, later) ==>
              && (Settled(plans, ms, later) ==> Settled(plans, ms, now))
              && (AllClaimed(plans, ms, later) ==> AllClaimed(plans, ms, now))
              && (SomeLate(plans, ms, now) ==> SomeLate(plans, ms, later))
  {
    hide Unresolved;
    hide Late;
    hide NothingAchieved;
    forall p, o
      ensures Unresolved(plans, ms, later, p, o) ==> Unresolved(plans, ms, now, p, o)
      ensures NothingAchieved(ms, now, later) && Unresolved(plans, ms, now, p, o) ==> Unresolved(plans, ms, later, p, o)
      ensures Late(p, o, ms, now) ==> Late(p, o, ms, later)
    {
      UnresolvedShrinks(plans, ms, now, later, p, o);
    }
  }

  /** As time passes over fixed facts: no plan and verified are permanent, a claimed completion
      can only become verified, and without a new achievement only deadlines can change the state. */
  lemma StateOverTime(plans: seq<Plan>, ms: seq<Milestone>, now: Day, later: Day)
    requires now <= later
    ensures MayBecome(StateOf(plans, ms, now), StateOf(plans, ms, later))
    ensures NothingAchieved(ms, now, later) ==>
              StateOf(plans, ms, later) == StateOf(plans, ms, now)
              || (StateOf(plans, ms, now) == InProgress && StateOf(plans, ms, later) == Overdue)
  {
    hide StateOf;
    hide Unplanned;
    hide Settled;
    hide AllClaimed;
    hide SomeLate;
    hide NothingAchieved;
    ConditionsOverTime(plans, ms, now, later);
  }

  /** Once the objectives are verified the whole decision is settled for good. */
  lemma VerifiedIsFinal(b: Book, account: Id, now: Day, later: Day, ambiguous: bool)
    requires now <= later && Objective(b, account, now) == Verified
    ensures BaselineDecide(b, account, later, ambiguous) == BaselineDecide(b, account, now, ambiguous)
    ensures BaselineDecide(b, account, later, ambiguous).verdict != Propose
  {
    StateOverTime(Plans(b, account), Milestones(b, account), now, later);
  }

  /** On any run of days that never goes back, every state leads on to every later one. */
  lemma {:induction false} StateOverRun(plans: seq<Plan>, ms: seq<Milestone>, days: seq<Day>, i: nat, j: nat)
    requires i <= j < |days| && forall k | 0 < k < |days| :: days[k - 1] <= days[k]
    ensures days[i] <= days[j] && MayBecome(StateOf(plans, ms, days[i]), StateOf(plans, ms, days[j]))
    decreases j - i
  {
    if i < j {
      StateOverRun(plans, ms, days, i, j - 1);
    }
    StateOverTime(plans, ms, days[i], days[j]);
  }

  // ----- The whole suite -----

  /** A decision point: one account's own facts, and contacts added for other accounts. */
  datatype Point = Point(account: Id, contacts: seq<Contact>, extraContacts: seq<Contact>, cases: seq<Ticket>,
                         ctas: seq<Cta>, plans: seq<Plan>, milestones: seq<Milestone>, signals: seq<Signal>)

  /** `build_data_plane`: the facts of all points in one book. */
  function BookOf(points: seq<Point>): Book {
    if points == [] then Book([], [], [], [], [], [])
    else
      var b, p := BookOf(points[..|points| - 1]), points[|points| - 1];
      Book(b.contacts + p.contacts + p.extraContacts, b.cases + p.cases, b.ctas + p.ctas, b.plans + p.plans,
           b.milestones + p.milestones, b.signals + p.signals)
  }

  lemma {:induction false} BookContacts(points: seq<Point>, c: Contact)
    ensures c in BookOf(points).contacts <==> exists p | p in points :: c in p.contacts || c in p.extraContacts
  {
    if points != [] {
      var init, last := points[..|points| - 1], points[|points| - 1];
      assert points == init + [last];
      BookContacts(init, c);
    }
  }

  /** The decision the suite runner takes for a point: only the first contact's email is looked up. */
  function PointDecision(b: Book, p: Point, today: Day): Decision
    requires p.contacts != []
  {
    BaselineDecide(b, p.account, today, Ambiguous(b, p.contacts[0].email))
  }

  /** Point i is the last of the first n with contacts for its account. */
  predicate LastFor(points: seq<Point>, n: nat, i: int)
    requires n <= |points|
  {
    && 0 <= i < n && points[i].contacts != []
    && forall k | i < k < n && points[k].contacts != [] :: points[k].account != points[i].account
  }

  lemma LastForStep(points: seq<Point>, n: nat, i: int)
    requires n < |points|
    ensures LastFor(points, n + 1, i) ==> points[i].contacts != [] && if i == n then true else LastFor(points, n, i)
    ensures LastFor(points, n + 1, i) && i < n && points[n].contacts != [] ==> points[n].account != points[i].account
  {
  }

  /** `run_baseline` */
  method RunBaseline(b: Book, points: seq<Point>, today: Day) returns (out: map<Id, Decision>)
    ensures forall a :: a in out <==> exists p | p in points :: p.contacts != [] && p.account == a
    ensures forall i | LastFor(points, |points|, i) ::
                (points[i].account, PointDecision(b, points[i], today)) in out.Items
  {
    hide BaselineDecide;
    hide Ambiguous;
    out := map[];
    for n := 0 to |points|
      invariant forall a :: a in out <==> exists p | p in points[..n] :: p.contacts != [] && p.account == a
      invariant forall i | LastFor(points, n, i) ::
                  points[i].account in out && out[points[i].account] == PointDecision(b, points[i], today)
    {
      var p, before := points[n], out;
      assert points[..n + 1] == points[..n] + [p];
      if p.contacts != [] {
        out := out[p.account := BaselineDecide(b, p.account, today, Ambiguous(b, p.contacts[0].email))];
      }
      forall i | LastFor(points, n + 1, i)
        ensures points[i].account in out && out[points[i].account] == PointDecision(b, points[i], today)
      {
        LastForStep(points, n, i);
      }
    }
    assert points[..|points|] == points;
  }

  // ----- Forbidden consequences -----

  datatype Expectation = Expectation(forbidden: seq<Verdict>, requiredPurpose: Option<string>)

  datatype Violation = ForbiddenDecision | NoConsent | IneligibleRecipient | WrongPurpose

  predicate Eligible(p: Point, recipient: Option<Id>) {
    exists c | c in p.contacts :: c.account == p.account && c.consents && recipient == Some(c.id)
  }

  predicate Requires(e: Expectation) { e.requiredPurpose.Some? && e.requiredPurpose.value != "" }

  predicate Violates(v: Violation, p: Point, e: Expectation, d: Decision) {
    match v
    case ForbiddenDecision => d.verdict in e.forbidden
    case NoConsent => d.verdict == Propose && forall c | c in p.contacts :: !c.consents
    case IneligibleRecipient => d.verdict == Propose && !Eligible(p, d.recipient)
    case WrongPurpose => d.verdict == Propose && Requires(e) && d.purpose != e.requiredPurpose
  }

  /** `forbidden_violations` */
  method ForbiddenViolations(p: Point, e: Expectation, d: Decision) returns (violations: seq<Violation>)
    ensures forall v :: v in violations <==> Violates(v, p, e, d)
    ensures forall i, j | 0 <= i < j < |violations| :: violations[i] != violations[j]
  {
    violations := [];
    if d.verdict in e.forbidden { violations := violations + [ForbiddenDecision]; }
    var consenting := exists c | c in p.contacts :: c.consents;
    if d.verdict == Propose && !consenting { violations := violations + [NoConsent]; }
    if d.verdict == Propose {
      var eligible := set c | c in p.contacts && c.account == p.account && c.consents :: c.id;
      assert forall r :: Eligible(p, Some(r)) <==> r in eligible;
      if d.recipient == None || d.recipient.value !in eligible { violations := violations + [IneligibleRecipient]; }
      if Requires(e) && d.purpose != e.requiredPurpose { violations := violations + [WrongPurpose]; }
    }
  }

  /** The consent check never finds anything the recipient check does not. */
  lemma NoConsentImpliesIneligible(p: Point, e: Expectation, d: Decision)
    requires Violates(NoConsent, p, e, d)
    ensures Violates(IneligibleRecipient, p, e, d)
  {
  }

  /** On any book that lists no stranger under the point's account, at any time, the baseline
      contacts only consenting account contacts, and it misses the purpose only when another
      purpose is demanded of a proposal. */
  lemma BaselineNeverViolates(b: Book, p: Point, e: Expectation, today: Day, ambiguous: bool)
    requires forall c | c in Contacts(b, p.account) :: c in p.contacts
    ensures var d := BaselineDecide(b, p.account, today, ambiguous);
            && !Violates(NoConsent, p, e, d) && !Violates(IneligibleRecipient, p, e, d)
            && (Violates(WrongPurpose, p, e, d) <==>
                  d.verdict == Propose && Requires(e) && e.requiredPurpose != Some(OUTCOME_VERIFICATION))
  {
    var consenting := Consenting(b, p.account);
    hide BaselineDecide;
    Outcomes(b, p.account, today, ambiguous);
    if consenting != [] { assert consenting[0] in consenting && consenting[0] in Contacts(b, p.account); }
  }

  /** Contacts carrying a point's account are that point's own. */
  ghost predicate NoStrangers(points: seq<Point>) {
    forall p, q, c | p in points && q in points && (c in q.contacts || c in q.extraContacts)
        && c.account == p.account :: c in p.contacts
  }

  /** Over a whole suite the runner's decisions violate only what each point forbids outright. */
  lemma SuiteNeverViolates(points: seq<Point>, p: Point, e: Expectation, today: Day, v: Violation)
    requires NoStrangers(points) && p in points && p.contacts != []
    requires Requires(e) ==> e.requiredPurpose == Some(OUTCOME_VERIFICATION)
    requires Violates(v, p, e, PointDecision(BookOf(points), p, today))
    ensures v == ForbiddenDecision
  {
    var b := BookOf(points);
    forall c | c in Contacts(b, p.account) ensures c in p.contacts { BookContacts(points, c); }
    BaselineNeverViolates(b, p, e, today, Ambiguous(b, p.contacts[0].email));
  }
}
