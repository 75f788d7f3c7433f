/** Bursary decisions and the fund they draw on: the rule engine (server/src/utils/bursary-decision.ts),
    the fund's counters (server/src/repositories/bursaryFund.repository.ts) and the transaction of
    `autoDecideForApplication` (server/src/api/bursary-applications/bursary-applications.service.ts).
    Money is in integer pennies. */
module Bursary {
  import opened Prelude

  // ---------------------------------------------------------------- the rule engine

  /** The JSON column, field by field as far as it holds a value of the right type. */
  datatype Eligibility = Eligibility(
    autoRejectAboveIncome: Option<int>,
    autoApproveBelowIncome: Option<int>,
    defaultAwardAmount: Option<int>,
    maxAwardPerStudent: Option<int>,
    requiresCircumstancesDesc: Option<bool>,
    feeStatusAllowList: seq<string>)

  const NO_RULES := Eligibility(None, None, None, None, None, [])

  datatype Rules = Rules(
    rejectAbove: int,
    approveBelow: int,
    defaultAward: int,
    maxAward: int,
    requiresDesc: bool,
    feeStatuses: seq<string>)

  function NonNegativeOr(v: Option<int>, default: int): int {
    if v.Some? && v.value >= 0 then v.value else default
  }

  function ResolveRules(e: Eligibility): Rules {
    Rules(NonNegativeOr(e.autoRejectAboveIncome, 6000000),
          NonNegativeOr(e.autoApproveBelowIncome, 1500000),
          NonNegativeOr(e.defaultAwardAmount, 100000),
          NonNegativeOr(e.maxAwardPerStudent, 300000),
          e.requiresCircumstancesDesc.Some? && e.requiresCircumstancesDesc.value,
          e.feeStatusAllowList)
  }

  /** What the engine reads of an application; `described` says whether the trimmed description has
      any text left. */
  datatype Snapshot = Snapshot(householdIncome: Option<int>, described: bool, feeStatus: Option<string>)

  datatype Decision = APPROVE | REVIEW | REJECT

  datatype Verdict = Verdict(decision: Decision, suggestedAward: int)

  function Evaluate(a: Snapshot, remainingBudget: int, e: Eligibility): Verdict {
    var rules := ResolveRules(e);
    var remaining := Max(0, remainingBudget);
    var cappedAward := Min(rules.defaultAward, rules.maxAward);
    var suggestedAward := Min(cappedAward, remaining);
    if rules.requiresDesc && !a.described then Verdict(REJECT, 0)
    else if a.householdIncome.Some? && a.householdIncome.value > rules.rejectAbove then Verdict(REJECT, 0)
    else if rules.feeStatuses != [] && a.feeStatus.Some? && a.feeStatus.value !in rules.feeStatuses then
      Verdict(REJECT, 0)
    else if suggestedAward == 0 && cappedAward > 0 then Verdict(REJECT, 0)
    else if a.householdIncome.Some? && a.householdIncome.value <= rules.approveBelow
            && suggestedAward > 0 && suggestedAward <= remaining then Verdict(APPROVE, suggestedAward)
    else Verdict(REVIEW, suggestedAward)
  }

  function Severity(d: Decision): int {
    match d case APPROVE => 0 case REVIEW => 1 case REJECT => 2
  }

  /** With all else fixed the verdict only moves from APPROVE through REVIEW to REJECT as the reported
      income rises. */
  lemma VerdictMonotoneInIncome(a: Snapshot, remaining: int, e: Eligibility, low: int, high: int)
    requires low <= high
    ensures Severity(Evaluate(a.(householdIncome := Some(low)), remaining, e).decision)
         <= Severity(Evaluate(a.(householdIncome := Some(high)), remaining, e).decision)
  {
  }

  /** An approval always reports an income within both thresholds and awards a positive amount that
      the fund can pay; an unreported income is never approved. */
  lemma ApprovalIsFunded(a: Snapshot, remaining: int, e: Eligibility)
    ensures var v, rules := Evaluate(a, remaining, e), ResolveRules(e);
      && (v.decision == APPROVE ==>
            && a.householdIncome.Some? && a.householdIncome.value <= Min(rules.approveBelow, rules.rejectAbove)
            && 0 < v.suggestedAward <= Min(remaining, Min(rules.defaultAward, rules.maxAward)))
      && 0 <= v.suggestedAward <= Max(0, remaining)
  {
  }

  /** A limit that is missing or negative falls back to its default. */
  function Limit(v: Option<int>, default: int): int {
    match v case Some(x) => if x < 0 then default else x case None => default
  }

  /** Exactly when each verdict is given, and what it suggests. An application is rejected if the fund wants a
      description it lacks, its income is above the limit, its fee status is known and not allowed, or there
      is nothing left to award; it is approved if its income is known and low enough; the rest is reviewed. */
  lemma VerdictIff(a: Snapshot, remaining: int, e: Eligibility)
    ensures var v := Evaluate(a, remaining, e);
      var most := Min(Limit(e.defaultAwardAmount, 100000), Limit(e.maxAwardPerStudent, 300000));
      var barred := (e.requiresCircumstancesDesc == Some(true) && !a.described)
                    || (a.householdIncome.Some? && a.householdIncome.value > Limit(e.autoRejectAboveIncome, 6000000))
                    || (|e.feeStatusAllowList| > 0 && exists s :: a.feeStatus == Some(s) && s !in e.feeStatusAllowList);
      && (v.decision == REJECT <==> barred || (most > 0 && remaining <= 0))
      && (v.decision == APPROVE <==>
            !barred && most > 0 && remaining > 0 && a.householdIncome.Some?
            && a.householdIncome.value <= Limit(e.autoApproveBelowIncome, 1500000))
      && v.suggestedAward == (if v.decision == REJECT then 0 else Min(most, Max(0, remaining)))
  {
  }

  // ---------------------------------------------------------------- one decision as a transaction

  datatype Status = SUBMITTED | UNDER_REVIEW | APPROVED | REJECTED | PAID

  datatype Application = Application(status: Status, awardAmount: Option<int>, facts: Snapshot)

  /** One fund and its applications. */
  datatype Desk = Desk(allocatedSum: int, remaining: int, applications: seq<Application>)

  predicate Terminal(s: Status) { s == APPROVED || s == REJECTED || s == PAID }

  function AwardOf(a: Application): int { if a.awardAmount.None? then 0 else a.awardAmount.value }

  /** An award that the fund is committed to. */
  function LiveAward(a: Application): int { if a.status == APPROVED || a.status == PAID then AwardOf(a) else 0 }

  function Committed(d: Desk): int { SumOf(d.applications, LiveAward) }

  datatype Event =
    | Submit(facts: Snapshot)
    | Amend(id: nat, facts: Snapshot)
    | MarkPaid(id: nat)
    | AutoDecide(id: nat, rules: Eligibility, force: bool)

  predicate Accepts(d: Desk, e: Event) {
    match e
    case Submit(_) => true
    case Amend(id, _) => id < |d.applications|
    case MarkPaid(id) => id < |d.applications| && d.applications[id].status == APPROVED
    case AutoDecide(id, _, force) => id < |d.applications| && (force || !Terminal(d.applications[id].status))
  }

  function VerdictOn(d: Desk, id: nat, rules: Eligibility): Verdict
    requires id < |d.applications|
  {
    Evaluate(d.applications[id].facts, d.remaining, rules)
  }

  /** Pennies the transaction takes from the fund; negative when it gives some back. */
  function Drawn(a: Application, v: Verdict): int {
    if v.decision == APPROVE then v.suggestedAward - AwardOf(a)
    else if a.status == APPROVED && AwardOf(a) > 0 then -AwardOf(a)
    else 0
  }

  /** The application afterwards: only REVIEW leaves the recorded award in place. */
  function Decided(a: Application, v: Verdict): Application {
    match v.decision
    case APPROVE => a.(status := APPROVED, awardAmount := Some(v.suggestedAward))
    case REJECT => a.(status := REJECTED, awardAmount := None)
    case REVIEW => a.(status := UNDER_REVIEW)
  }

  function Step(d: Desk, e: Event): Desk {
    if !Accepts(d, e) then d else
    match e
    case Submit(facts) => d.(applications := d.applications + [Application(SUBMITTED, None, facts)])
    case Amend(id, facts) => d.(applications := d.applications[id := d.applications[id].(facts := facts)])
    case MarkPaid(id) => d.(applications := d.applications[id := d.applications[id].(status := PAID)])
    case AutoDecide(id, rules, _) =>
      var a, v := d.applications[id], VerdictOn(d, id, rules);
      Desk(d.allocatedSum + Drawn(a, v), d.remaining - Drawn(a, v), d.applications[id := Decided(a, v)])
  }

  function Run(d: Desk, events: seq<Event>): Desk
    decreases |events|
  {
    if events == [] then d else Run(Step(d, events[0]), events[1..])
  }

  // ---------------------------------------------------------------- what every run keeps

  ghost predicate Solvent(d: Desk) {
    d.remaining >= 0 && forall a :: a in d.applications ==> AwardOf(a) >= 0
  }

  lemma {:induction false} StepKeepsSolvent(d: Desk, e: Event)
    requires Solvent(d)
    ensures Solvent(Step(d, e)) && Step(d, e).allocatedSum + Step(d, e).remaining == d.allocatedSum + d.remaining
  {
    if Accepts(d, e) && e.AutoDecide? {
      ApprovalIsFunded(d.applications[e.id].facts, d.remaining, e.rules);
      assert d.applications[e.id] in d.applications;
    }
    forall a | a in Step(d, e).applications ensures AwardOf(a) >= 0 {
      if a !in d.applications && Accepts(d, e) && !e.Submit? { assert d.applications[e.id] in d.applications; }
    }
  }

  /** Over every run the budget is only moved between the two counters and is never overdrawn. */
  lemma {:induction false} RunKeepsBudget(d: Desk, events: seq<Event>)
    requires Solvent(d)
    ensures Solvent(Run(d, events))
    ensures Run(d, events).allocatedSum + Run(d, events).remaining == d.allocatedSum + d.remaining
    decreases |events|
  {
    if events == [] {
    } else {
      StepKeepsSolvent(d, events[0]);
      RunKeepsBudget(Step(d, events[0]), events[1..]);
    }
  }

  // ---------------------------------------------------------------- does the fund match its awards?

  /** The step keeps the difference between the counter and the live awards. */
  ghost predicate KeepsMatch(d: Desk, e: Event) {
    Step(d, e).allocatedSum - Committed(Step(d, e)) == d.allocatedSum - Committed(d)
  }

  /** A recorded award the fund is no longer committed to: what a REVIEW of an approved row leaves. */
  predicate Stale(a: Application) { AwardOf(a) != 0 && a.status != APPROVED && a.status != PAID }

  /** A decision keeps the match exactly when an approval does not meet a stale award and anything
      else does not meet a paid one. */
  lemma {:induction false} DecisionKeepsMatchIff(d: Desk, id: nat, rules: Eligibility, force: bool)
    requires Solvent(d) && Accepts(d, AutoDecide(id, rules, force))
    ensures var a, v := d.applications[id], VerdictOn(d, id, rules);
      KeepsMatch(d, AutoDecide(id, rules, force))
      <==> (if v.decision == APPROVE then !Stale(a) else a.status != PAID || AwardOf(a) == 0)
  {
    var a, v := d.applications[id], VerdictOn(d, id, rules);
    assert a in d.applications;
    SumOfUpdate(d.applications, id, Decided(a, v), LiveAward);
  }

  /** The condition of `DecisionKeepsMatchIff` on an event: what it asks of the row decided and of the
      verdict. */
  predicate KeepsStep(d: Desk, e: Event) {
    e.AutoDecide? && Accepts(d, e) ==>
      var a, decision := d.applications[e.id], VerdictOn(d, e.id, e.rules).decision;
      if decision == APPROVE then !Stale(a) else a.status != PAID || AwardOf(a) == 0
  }

  /** The counter is the sum of the live awards. */
  ghost predicate InStep(d: Desk) { Solvent(d) && d.allocatedSum == Committed(d) }

  lemma {:induction false} OtherEventsKeepMatch(d: Desk, e: Event)
    requires Accepts(d, e) && !e.AutoDecide?
    ensures KeepsMatch(d, e)
  {
    match e
    case Submit(facts) =>
      SumOfAppend(d.applications, [Application(SUBMITTED, None, facts)], LiveAward);
      assert [Application(SUBMITTED, None, facts)][1..] == [];
    case Amend(id, facts) =>
      SumOfUpdate(d.applications, id, d.applications[id].(facts := facts), LiveAward);
    case MarkPaid(id) =>
      SumOfUpdate(d.applications, id, d.applications[id].(status := PAID), LiveAward);
  }

  lemma {:induction false} StepStaysInStepIff(d: Desk, e: Event)
    requires InStep(d)
    ensures InStep(Step(d, e)) <==> KeepsStep(d, e)
  {
    StepKeepsSolvent(d, e);
    if Accepts(d, e) {
      if e.AutoDecide? {
        DecisionKeepsMatchIff(d, e.id, e.rules, e.force);
      } else {
        OtherEventsKeepMatch(d, e);
      }
    }
  }

  predicate KeepsStepThroughout(d: Desk, events: seq<Event>)
    decreases |events|
  {
    events == [] || (KeepsStep(d, events[0]) && KeepsStepThroughout(Step(d, events[0]), events[1..]))
  }

  ghost predicate AlwaysInStep(d: Desk, events: seq<Event>) {
    forall k :: 0 <= k <= |events| ==> InStep(Run(d, events[..k]))
  }

  lemma {:induction false} PrefixesOfRun(d: Desk, events: seq<Event>)
    requires events != []
    ensures events[..0] == []
    ensures forall k :: 0 <= k < |events| ==> Run(d, events[..k + 1]) == Run(Step(d, events[0]), events[1..][..k])
  {
    forall k | 0 <= k < |events| ensures Run(d, events[..k + 1]) == Run(Step(d, events[0]), events[1..][..k]) {
      assert events[..k + 1][1..] == events[1..][..k];
    }
  }

  /** Over a run the counter is the sum of the live awards at every point if and only if no decision
      approves a row with a stale award or does anything but approve a paid one. */
  lemma {:induction false} RunStaysInStepIff(d: Desk, events: seq<Event>)
    requires InStep(d)
    ensures AlwaysInStep(d, events) <==> KeepsStepThroughout(d, events)
    decreases |events|
  {
    if events == [] {
      assert events[..0] == [];
    } else {
      var next, rest := Step(d, events[0]), events[1..];
      StepStaysInStepIff(d, events[0]);
      PrefixesOfRun(d, events);
      if InStep(next) {
        RunStaysInStepIff(next, rest);
        assert forall k :: 0 < k <= |events| ==> Run(d, events[..k]) == Run(next, rest[..k - 1]);
        if AlwaysInStep(d, events) {
          forall k | 0 <= k <= |rest| ensures InStep(Run(next, rest[..k])) { assert InStep(Run(d, events[..k + 1])); }
        }
      } else {
        assert Run(d, events[..0 + 1]) == next;
      }
    }
  }

  // ---------------------------------------------------------------- keeping every award accounted for

  /** No decision sends an approved award back to review, nor does anything but approve a paid one. */
  predicate Careful(d: Desk, e: Event) {
    e.AutoDecide? && Accepts(d, e) ==>
      var a, decision := d.applications[e.id], VerdictOn(d, e.id, e.rules).decision;
      && (a.status == APPROVED && AwardOf(a) != 0 ==> decision != REVIEW)
      && (a.status == PAID && AwardOf(a) != 0 ==> decision == APPROVE)
  }

  /** In step, and with no award recorded that the fund is not committed to. */
  ghost predicate Matched(d: Desk) {
    InStep(d) && forall a :: a in d.applications ==> !Stale(a)
  }

  predicate CarefulRun(d: Desk, events: seq<Event>)
    decreases |events|
  {
    events == [] || (Careful(d, events[0]) && CarefulRun(Step(d, events[0]), events[1..]))
  }

  lemma {:induction false} StepKeepsMatchedIff(d: Desk, e: Event)
    requires Matched(d)
    ensures Matched(Step(d, e)) <==> Careful(d, e)
  {
    StepStaysInStepIff(d, e);
    if Accepts(d, e) && !e.Submit? {
      var id, after := e.id, Step(d, e).applications;
      assert d.applications[id] in d.applications;
      assert after[id] in after;
    }
  }

  ghost predicate AlwaysMatched(d: Desk, events: seq<Event>) {
    forall k :: 0 <= k <= |events| ==> Matched(Run(d, events[..k]))
  }

  /** Over a run every award stays accounted for at every point if and only if the run is careful. */
  lemma {:induction false} RunStaysMatchedIff(d: Desk, events: seq<Event>)
    requires Matched(d)
    ensures AlwaysMatched(d, events) <==> CarefulRun(d, events)
    decreases |events|
  {
    if events == [] {
      assert events[..0] == [];
    } else {
      var next, rest := Step(d, events[0]), events[1..];
      StepKeepsMatchedIff(d, events[0]);
      PrefixesOfRun(d, events);
      if Matched(next) {
        RunStaysMatchedIff(next, rest);
        assert forall k :: 0 < k <= |events| ==> Run(d, events[..k]) == Run(next, rest[..k - 1]);
        if AlwaysMatched(d, events) {
          forall k | 0 <= k <= |rest| ensures Matched(Run(next, rest[..k])) { assert Matched(Run(d, events[..k + 1])); }
        }
      } else {
        assert Run(d, events[..0 + 1]) == next;
      }
    }
  }

  /** Without that care it fails: approved, sent back to review, approved again, and the fund shows
      nothing allocated against a live award of 1000 pounds. */
  lemma {:induction false} ForgottenAwardWitness()
    ensures var poor := Snapshot(Some(0), true, None);
      var silent := Snapshot(None, true, None);
      var d := Run(Desk(0, 500000, []),
                   [Submit(poor), AutoDecide(0, NO_RULES, false), Amend(0, silent), AutoDecide(0, NO_RULES, true),
                    Amend(0, poor), AutoDecide(0, NO_RULES, false)]);
      d.allocatedSum == 0 && Committed(d) == 100000
  {
    var poor, silent := Snapshot(Some(0), true, None), Snapshot(None, true, None);
    var e1, e2, e3, e4, e5, e6 := Submit(poor), AutoDecide(0, NO_RULES, false), Amend(0, silent),
                                  AutoDecide(0, NO_RULES, true), Amend(0, poor), AutoDecide(0, NO_RULES, false);
    var d0 := Desk(0, 500000, []);
    var d1 := Step(d0, e1);
    var d2 := Step(d1, e2);
    var d3 := Step(d2, e3);
    var d4 := Step(d3, e4);
    var d5 := Step(d4, e5);
    var d6 := Step(d5, e6);
    assert d2 == Desk(100000, 400000, [Application(APPROVED, Some(100000), poor)]);
    assert d4 == Desk(0, 500000, [Application(UNDER_REVIEW, Some(100000), silent)]);
    assert d6 == Desk(0, 500000, [Application(APPROVED, Some(100000), poor)]);
    RunOfSix(d0, e1, e2, e3, e4, e5, e6);
    assert d6.applications[1..] == [];
    assert SumOf(d6.applications, LiveAward) == LiveAward(d6.applications[0]) + SumOf([], LiveAward);
  }

  lemma {:induction false} RunOfSix(d: Desk, e1: Event, e2: Event, e3: Event, e4: Event, e5: Event, e6: Event)
    ensures Run(d, [e1, e2, e3, e4, e5, e6]) == Step(Step(Step(Step(Step(Step(d, e1), e2), e3), e4), e5), e6)
  {
    hide Step;
    assert [e6][1..] == [] && [e5, e6][1..] == [e6] && [e4, e5, e6][1..] == [e5, e6];
    assert [e3, e4, e5, e6][1..] == [e4, e5, e6] && [e2, e3, e4, e5, e6][1..] == [e3, e4, e5, e6];
    assert [e1, e2, e3, e4, e5, e6][1..] == [e2, e3, e4, e5, e6];
    var d3 := Step(Step(Step(d, e1), e2), e3);
    assert Run(Step(d3, e4), [e5, e6]) == Step(Step(Step(d3, e4), e5), e6) by {
      assert Run(Step(Step(d3, e4), e5), [e6]) == Run(Step(Step(Step(d3, e4), e5), e6), []);
    }
    assert Run(Step(Step(d, e1), e2), [e3, e4, e5, e6]) == Run(d3, [e4, e5, e6]);
  }

  // ---------------------------------------------------------------- the desk

  class BursaryDesk {
    var allocatedSum: int
    var remaining: int
    var applications: seq<Application>

    function View(): Desk
      reads this
    {
      Desk(allocatedSum, remaining, applications)
    }

    constructor (budget: int)
      ensures View() == Desk(0, budget, [])
    {
      allocatedSum, remaining, applications := 0, budget, [];
    }

    /** The caller must ask for something, and for no more than is left. */
    method ReserveBudgetInTx(amount: int)
      requires 0 < amount <= remaining
      modifies this`allocatedSum, this`remaining
      ensures allocatedSum == old(allocatedSum) + amount && remaining == old(remaining) - amount
    {
      allocatedSum := allocatedSum + amount;
      remaining := remaining - amount;
    }

    method ReleaseBudgetInTx(amount: int)
      modifies this`allocatedSum, this`remaining
      ensures allocatedSum == old(allocatedSum) - amount && remaining == old(remaining) + amount
    {
      allocatedSum := allocatedSum - amount;
      remaining := remaining + amount;
    }

    method SubmitApplication(facts: Snapshot)
      modifies this
      ensures View() == Step(old(View()), Submit(facts))
      ensures applications == old(applications) + [Application(SUBMITTED, None, facts)]
    {
      applications := applications + [Application(SUBMITTED, None, facts)];
    }

    /** The transaction of the service; `decided` is false when the row is terminal and not forced. */
    method AutoDecideForApplication(id: nat, rules: Eligibility, force: bool) returns (decided: bool)
      requires id < |applications| && Solvent(View())
      modifies this
      ensures decided == Accepts(old(View()), AutoDecide(id, rules, force))
      ensures decided <==> force || old(applications)[id].status == SUBMITTED
                           || old(applications)[id].status == UNDER_REVIEW
      ensures decided ==>
                var before, v := old(applications)[id], Evaluate(old(applications)[id].facts, old(remaining), rules);
                applications == old(applications)[id :=
                  match v.decision
                  case APPROVE => Application(APPROVED, Some(v.suggestedAward), before.facts)
                  case REJECT => Application(REJECTED, None, before.facts)
                  case REVIEW => Application(UNDER_REVIEW, before.awardAmount, before.facts)]
      ensures allocatedSum + remaining == old(allocatedSum) + old(remaining)
      ensures View() == Step(old(View()), AutoDecide(id, rules, force)) && Solvent(View())
    {
      StepKeepsSolvent(View(), AutoDecide(id, rules, force));
      var application := applications[id];
      if Terminal(application.status) && !force { return false; }
      var v := Evaluate(application.facts, remaining, rules);
      ApprovalIsFunded(application.facts, remaining, rules);
      assert application in applications;
      var previousAward := AwardOf(application);
      if application.status == APPROVED && v.decision != APPROVE && previousAward > 0 {
        ReleaseBudgetInTx(previousAward);
      }
      if v.decision == APPROVE {
        var reserveAmount := v.suggestedAward - previousAward;
        if reserveAmount > 0 {
          ReserveBudgetInTx(reserveAmount);
        } else if reserveAmount < 0 {
          ReleaseBudgetInTx(-reserveAmount);
        }
        application := application.(status := APPROVED, awardAmount := Some(v.suggestedAward));
      } else if v.decision == REJECT {
        application := application.(status := REJECTED, awardAmount := None);
      } else if application.status != UNDER_REVIEW {
        application := application.(status := UNDER_REVIEW);
      }
      applications := applications[id := application];
      decided := true;
    }
  }
}
