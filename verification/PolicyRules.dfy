/** The rules baseline against its own published rules (eval/customer_outcome_comparison.py). */
module PolicyRules {
  import opened Rubric
  import opened Sequencing
  import opened Policy

  /** The published order: lateness comes before the claim, and the claim is made by all plans. */
  ghost function Documented(plans: seq<Plan>, ms: seq<Milestone>, today: Day): State {
    if Unplanned(plans) then NoPlan
    else if Settled(plans, ms, today) then Verified
    else if SomeLate(plans, ms, today) then Overdue
    else if forall p | p in plans :: Claims(p) then ClaimedComplete
    else InProgress
  }

  /** The plans of the unresolved objectives all claim completion, yet one of these objectives is
      late or some other plan makes no claim. */
  ghost predicate ClaimDecides(plans: seq<Plan>, ms: seq<Milestone>, today: Day) {
    && !Unplanned(plans) && !Settled(plans, ms, today) && AllClaimed(plans, ms, today)
    && (SomeLate(plans, ms, today) || exists p | p in plans :: !Claims(p))
  }

  /** The code is in the documented state exactly when the claim does not decide; when it does, the
      code reports a claimed completion where an overdue or unfinished objective is documented. */
  lemma DocumentedStates(plans: seq<Plan>, ms: seq<Milestone>, today: Day)
    ensures StateOf(plans, ms, today) == Documented(plans, ms, today) <==> !ClaimDecides(plans, ms, today)
    ensures ClaimDecides(plans, ms, today) ==>
              && StateOf(plans, ms, today) == ClaimedComplete
              && Documented(plans, ms, today) == if SomeLate(plans, ms, today) then Overdue else InProgress
  {
    hide StateOf;
    hide SomeLate;
    hide Unplanned;
    hide Settled;
    if forall p | p in plans :: Claims(p) { assert AllClaimed(plans, ms, today); }
  }

  ghost function DocumentedDecision(b: Book, account: Id, today: Day, ambiguous: bool): Decision {
    DecideOn(b, account, today, ambiguous, Documented(Plans(b, account), Milestones(b, account), today))
  }

  /** The decision is the documented one exactly when the account is escalated anyway or the claim
      does not decide. Where they part the code asks for an internal review, and what is documented
      is outreach for a late objective with a consenting contact, a hold for an unfinished one with
      telemetry, and a review for another reason otherwise. */
  lemma DocumentedDecisions(b: Book, account: Id, today: Day, ambiguous: bool)
    ensures var plans, ms := Plans(b, account), Milestones(b, account);
      var code, rules := BaselineDecide(b, account, today, ambiguous), DocumentedDecision(b, account, today, ambiguous);
      && (code == rules <==> Escalates(b, account, ambiguous) || !ClaimDecides(plans, ms, today))
      && (code != rules ==>
            code.verdict == Review && code.reason == ClaimUnconfirmed
            && rules.verdict == if SomeLate(plans, ms, today)
                                then (if Consenting(b, account) != [] then Propose else Review)
                                else (if Telemetry(b, account, today) != [] then Hold else Review))
  {
    DocumentedStates(Plans(b, account), Milestones(b, account), today);
    hide Documented;
    hide StateOf;
    hide ClaimDecides;
    hide SomeLate;
    hide OpenCases;
    hide OpenCtas;
    hide HighCtas;
    hide Consenting;
    hide Telemetry;
    hide HasBlocker;
    hide HasHighCta;
  }

  /** One plan that claims completion and is past its date. */
  lemma ClaimHidesLateness(plan: Plan, o: string, today: Day)
    requires o in plan.objectives && Claims(plan) && Past(plan.target, today)
    ensures ClaimDecides([plan], [], today) && SomeLate([plan], [], today)
    ensures StateOf([plan], [], today) == ClaimedComplete && Documented([plan], [], today) == Overdue
  {
    assert Unresolved([plan], [], today, plan, o) && Late(plan, o, [], today);
    DocumentedStates([plan], [], today);
    hide StateOf;
  }

  /** For such an account with a consenting contact, documented outreach becomes a review. */
  lemma OutreachWithheld()
    ensures exists b: Book ::
              BaselineDecide(b, 7, 5, false).verdict == Review && DocumentedDecision(b, 7, 5, false).verdict == Propose
  {
    var plan, contact := Plan(7, "complete", ["go live"], Some(4)), Contact(1, 7, "a", true);
    var b := Book([contact], [], [], [plan], [], []);
    OnePlan(b, 7, plan, contact);
    NoItems(b, 7);
    ClaimHidesLateness(plan, "go live", 5);
    DocumentedDecisions(b, 7, 5, false);
    hide *;
  }

  lemma OnePlan(b: Book, account: Id, plan: Plan, c: Contact)
    requires b.plans == [plan] && plan.account == account && c in b.contacts && c.account == account && c.consents
    requires b.milestones == []
    ensures Plans(b, account) == [plan] && Milestones(b, account) == [] && Consenting(b, account) != []
  {
    assert [plan][..0] == []
           && Plans(b, account) == Select([plan], OwnPlan(account)) == Select([], OwnPlan(account)) + [plan];
    assert c in Consenting(b, account);
  }

  lemma NoItems(b: Book, account: Id)
    requires b.cases == [] && b.ctas == []
    ensures !Escalates(b, account, false)
  {
  }

  /** A finished plan that never claimed completion beside one that did: the claim is reported
      although it is not made by all plans. */
  lemma ClaimOfSomePlans()
    ensures var plans := [Plan(7, "active", ["install"], None), Plan(7, "complete", ["go live"], None)];
      var ms := [Milestone(7, "install", None, Some(3))];
      StateOf(plans, ms, 5) == ClaimedComplete && Documented(plans, ms, 5) == InProgress
  {
    var first, second := Plan(7, "active", ["install"], None), Plan(7, "complete", ["go live"], None);
    var done := Milestone(7, "install", None, Some(3));
    var plans, ms := [first, second], [done];
    assert first in plans && second in plans && done in ms;
    assert Achieved(ms, "install", 5) && !Achieved(ms, "go live", 5);
    assert Unresolved(plans, ms, 5, second, "go live") && !Claims(first);
    assert forall p, o | Unresolved(plans, ms, 5, p, o) :: p == second && !Late(p, o, ms, 5);
    SomeClaim(plans, ms, 5, second, "go live", first);
  }

  lemma SomeClaim(plans: seq<Plan>, ms: seq<Milestone>, today: Day, p: Plan, o: string, q: Plan)
    requires Unresolved(plans, ms, today, p, o) && Claims(p) && q in plans && !Claims(q)
    requires forall r, n | Unresolved(plans, ms, today, r, n) :: r == p && !Late(r, n, ms, today)
    ensures StateOf(plans, ms, today) == ClaimedComplete && Documented(plans, ms, today) == InProgress
  {
    hide StateOf;
    hide Late;
    hide Achieved;
    DocumentedStates(plans, ms, today);
  }

  // ----- The identity rule -----

  /** The documented first rule looks at every contact of the account. */
  predicate AnyAmbiguous(b: Book, p: Point) { exists c | c in p.contacts :: Ambiguous(b, c.email) }

  /** The runner takes the documented decision exactly when the first contact already shows the
      ambiguity, if there is one. */
  lemma IdentityRuleHolds(b: Book, p: Point, today: Day)
    requires p.contacts != []
    ensures PointDecision(b, p, today) == BaselineDecide(b, p.account, today, AnyAmbiguous(b, p))
            <==> (AnyAmbiguous(b, p) ==> Ambiguous(b, p.contacts[0].email))
  {
    hide Ambiguous;
    hide BaselineDecide;
    assert p.contacts[0] in p.contacts;
    SharedReason(b, p.account, today, Ambiguous(b, p.contacts[0].email));
    SharedReason(b, p.account, today, AnyAmbiguous(b, p));
  }

  lemma LatePlanProposes(b: Book, account: Id, c: Contact, plan: Plan, o: string, today: Day)
    requires b.plans == [plan] && plan.account == account && o in plan.objectives && !Claims(plan)
             && Past(plan.target, today)
    requires b.milestones == [] && b.cases == [] && b.ctas == []
    requires c in b.contacts && c.account == account && c.consents
    ensures BaselineDecide(b, account, today, false).verdict == Propose
  {
    OnePlan(b, account, plan, c);
    NoItems(b, account);
    assert Unresolved([plan], [], today, plan, o) && Late(plan, o, [], today);
    assert IsState(Objective(b, account, today), [plan], [], today);
    Outcomes(b, account, today, false);
    hide *;
  }

  lemma OnePoint(p: Point)
    ensures BookOf([p]) == Book(p.contacts + p.extraContacts, p.cases, p.ctas, p.plans, p.milestones, p.signals)
  {
    assert [p][..0] == [] && BookOf([]) == Book([], [], [], [], [], []);
  }

  lemma SharedSecond(b: Book, first: Contact, shared: Contact, other: Contact)
    requires b.contacts == [first, shared, other] && shared.email == other.email != ""
             && shared.account != other.account
    requires first.email != shared.email
    ensures Ambiguous(b, shared.email) && !Ambiguous(b, first.email)
  {
    assert b.contacts[1].email == b.contacts[2].email == shared.email;
  }

  /** A shared address in second place: the account is contacted, where the rule forbids it. */
  lemma SecondContactMissed()
    ensures exists p: Point ::
      && |p.contacts| == 2 && AnyAmbiguous(BookOf([p]), p) && PointDecision(BookOf([p]), p, 5).verdict == Propose
  {
    var first, shared, other := Contact(1, 7, "a", true), Contact(2, 7, "b", false), Contact(3, 8, "b", false);
    var plan := Plan(7, "active", ["go live"], Some(4));
    var p := Point(7, [first, shared], [other], [], [], [plan], [], []);
    var b := BookOf([p]);
    OnePoint(p);
    hide BookOf;
    hide BaselineDecide;
    hide Ambiguous;
    assert b.contacts == [first, shared, other];
    SharedSecond(b, first, shared, other);
    LatePlanProposes(b, 7, first, plan, "go live", 5);
    assert shared in p.contacts;
    assert AnyAmbiguous(b, p) && PointDecision(b, p, 5).verdict == Propose;
  }
}
