/** The 401 interceptor of the client (client/src/lib/api.ts:33-83): one token refresh at a time,
    with every other rejected request queued behind it. Handlers run to completion, so each event
    below is one atomic step; requests are numbered 0 to n-1. */
module TokenRefresh {
  import opened Prelude

  /** Where a request is: not sent, awaiting its response, queued behind a refresh, the one running
      the refresh, or settled for its caller. */
  datatype Phase = Unsent | InFlight | Waiting | Leading | Done(ok: bool)

  /** A place in the queue of one refresh; refreshes are numbered from 1. */
  datatype Ticket = Ticket(request: nat, refresh: nat)

  datatype Settled = Settled(ticket: Ticket, ok: bool)

  /** The module variables, the per-request flags, and the request whose handler awaits the refresh,
      followed by history kept for stating properties. */
  datatype Status = Status(
    isRefreshing: bool,
    failedQueue: seq<nat>,
    retry: seq<bool>,
    phase: seq<Phase>,
    leader: Option<nat>,
    refreshes: nat,
    resends: nat,
    waits: seq<Ticket>,
    settled: seq<Settled>,
    results: seq<bool>)

  datatype Event =
    | Send(request: nat)
    | Answered(request: nat, ok: bool)   // success, or a failure other than 401
    | Unauthorised(request: nat)         // a 401 response
    | Refreshed(ok: bool)                // the pending refresh yields a token, or fails

  function Initial(n: nat): Status {
    Status(false, [], seq(n, i => false), seq(n, i => Unsent), None, 0, 0, [], [], [])
  }

  /** What the environment may do next. */
  predicate Enabled(s: Status, e: Event) {
    match e
    case Send(r) => r < |s.phase| && s.phase[r] == Unsent
    case Answered(r, _) => r < |s.phase| && s.phase[r] == InFlight
    case Unauthorised(r) => r < |s.phase| && s.phase[r] == InFlight
    case Refreshed(_) => s.leader.Some?
  }

  predicate InRange(queue: seq<nat>, n: nat) { forall i :: 0 <= i < |queue| ==> queue[i] < n }

  /** Every request in `queue` moves to phase `p`. */
  function Release(phase: seq<Phase>, queue: seq<nat>, p: Phase): (r: seq<Phase>)
    requires InRange(queue, |phase|)
    ensures |r| == |phase|
    decreases |queue|
  {
    if queue == [] then phase else Release(phase[queue[0] := p], queue[1..], p)
  }

  function Settle(queue: seq<nat>, refresh: nat, ok: bool): (r: seq<Settled>)
    ensures |r| == |queue|
    ensures forall i :: 0 <= i < |queue| ==> r[i] == Settled(Ticket(queue[i], refresh), ok)
  {
    if queue == [] then [] else [Settled(Ticket(queue[0], refresh), ok)] + Settle(queue[1..], refresh, ok)
  }

  predicate WellFormed(s: Status) {
    && |s.retry| == |s.phase| && InRange(s.failedQueue, |s.phase|)
    && (s.leader.Some? ==> s.leader.value < |s.phase|)
  }

  function Step(s: Status, e: Event): Status
    requires WellFormed(s) && Enabled(s, e)
  {
    match e
    case Send(r) => s.(phase := s.phase[r := InFlight])
    case Answered(r, ok) => s.(phase := s.phase[r := Done(ok)])
    case Unauthorised(r) =>
      if s.retry[r] then s.(phase := s.phase[r := Done(false)])
      else if s.isRefreshing then
        s.(phase := s.phase[r := Waiting],
           failedQueue := s.failedQueue + [r],
           waits := s.waits + [Ticket(r, s.refreshes)])
      else
        s.(phase := s.phase[r := Leading], retry := s.retry[r := true], isRefreshing := true,
           leader := Some(r), refreshes := s.refreshes + 1)
    case Refreshed(ok) =>
      var target := if ok then InFlight else Done(false);
      s.(phase := Release(s.phase, s.failedQueue, target)[s.leader.value := target],
         leader := None,
         failedQueue := [],
         isRefreshing := false,
         resends := if ok then s.resends + |s.failedQueue| + 1 else s.resends,
         settled := s.settled + Settle(s.failedQueue, s.refreshes, ok),
         results := s.results + [ok])
  }

  // ---------------------------------------------------------------- the invariant

  function CountTrue(flags: seq<bool>): nat {
    if flags == [] then 0 else (if flags[0] then 1 else 0) + CountTrue(flags[1..])
  }

  /** Requests that may still start a refresh. */
  function Unspent(s: Status): int { |s.retry| - CountTrue(s.retry) }

  function TicketOf(x: Settled): Ticket { x.ticket }

  function QueueTickets(queue: seq<nat>, refresh: nat): (r: seq<Ticket>)
    ensures |r| == |queue|
    ensures forall i :: 0 <= i < |queue| ==> r[i] == Ticket(queue[i], refresh)
  {
    if queue == [] then [] else [Ticket(queue[0], refresh)] + QueueTickets(queue[1..], refresh)
  }

  function Triangle(n: int): int { n * (n + 1) / 2 }

  /** At most one refresh is pending and an idle interceptor has an empty queue; the queue holds each
      waiting request once, none of which has used its retry. */
  ghost predicate SingleFlight(s: Status) {
    && WellFormed(s)
    && (s.isRefreshing <==> s.leader.Some?)
    && (!s.isRefreshing ==> s.failedQueue == [])
    && (forall r :: 0 <= r < |s.phase| ==> (s.phase[r] == Leading <==> s.leader == Some(r)))
    && (forall r :: 0 <= r < |s.phase| && s.phase[r] == Leading ==> s.retry[r])
    && (forall i, j :: 0 <= i < j < |s.failedQueue| ==> s.failedQueue[i] != s.failedQueue[j])
    && (forall r :: 0 <= r < |s.phase| ==> (r in s.failedQueue <==> s.phase[r] == Waiting))
    && (forall r :: 0 <= r < |s.phase| && s.phase[r] == Waiting ==> !s.retry[r])
  }

  /** Everyone who ever queued has been settled exactly once, in order, by the refresh it waited on
      and with that refresh's result, except those still in the queue of the pending one. */
  ghost predicate SettledOnce(s: Status) {
    && s.waits == Map(TicketOf, s.settled) + QueueTickets(s.failedQueue, s.refreshes)
    && |s.results| == (if s.isRefreshing then s.refreshes - 1 else s.refreshes)
    && (forall x :: x in s.settled ==> 1 <= x.ticket.refresh <= |s.results| && x.ok == s.results[x.ticket.refresh - 1])
    && (forall i, j :: 0 <= i < j < |s.waits| ==> s.waits[i] != s.waits[j])
  }

  /** Each refresh spends one retry flag, and resends stay within the triangular budget. */
  ghost predicate WithinBudget(s: Status) {
    && s.refreshes == CountTrue(s.retry)
    && s.resends + (if s.isRefreshing then Unspent(s) + 1 else 0) + Triangle(Unspent(s)) <= Triangle(|s.retry|)
  }

  ghost predicate Inv(s: Status) { SingleFlight(s) && SettledOnce(s) && WithinBudget(s) }

  // ---------------------------------------------------------------- counting

  lemma {:induction false} CountTrueUpdate(flags: seq<bool>, r: nat)
    requires r < |flags| && !flags[r]
    ensures CountTrue(flags[r := true]) == CountTrue(flags) + 1
  {
    if r > 0 {
      assert flags[r := true][1..] == flags[1..][r - 1 := true];
      CountTrueUpdate(flags[1..], r - 1);
    } else {
      assert flags[0 := true][1..] == flags[1..];
    }
  }

  lemma {:induction false} CountTrueBound(flags: seq<bool>)
    ensures CountTrue(flags) <= |flags|
  {
    if flags == [] {
    } else {
      CountTrueBound(flags[1..]);
    }
  }

  lemma {:induction false} NoneSpent(n: nat)
    ensures CountTrue(seq(n, i => false)) == 0
  {
    if n == 0 {
    } else {
      assert seq(n, i => false)[1..] == seq(n - 1, i => false);
      NoneSpent(n - 1);
    }
  }

  /** A duplicate-free list of indices whose flag is unset is no longer than their number. */
  lemma {:induction false} UnsetListBound(flags: seq<bool>, queue: seq<nat>)
    requires InRange(queue, |flags|) && forall i :: 0 <= i < |queue| ==> !flags[queue[i]]
    requires forall i, j :: 0 <= i < j < |queue| ==> queue[i] != queue[j]
    ensures |queue| <= |flags| - CountTrue(flags)
    decreases |queue|
  {
    if queue == [] {
      CountTrueBound(flags);
    } else {
      CountTrueUpdate(flags, queue[0]);
      UnsetListBound(flags[queue[0] := true], queue[1..]);
    }
  }

  lemma TriangleStep(n: int)
    ensures Triangle(n) == Triangle(n - 1) + n
  {
  }

  lemma {:induction false} ReleaseAt(phase: seq<Phase>, queue: seq<nat>, p: Phase, i: nat)
    requires InRange(queue, |phase|)
    requires i < |phase|
    ensures Release(phase, queue, p)[i] == if i in queue then p else phase[i]
    decreases |queue|
  {
    if queue == [] {
    } else {
      ReleaseAt(phase[queue[0] := p], queue[1..], p, i);
    }
  }

  // ---------------------------------------------------------------- every step keeps the invariant

  lemma {:induction false} InitialInvariant(n: nat)
    ensures Inv(Initial(n))
  {
    hide CountTrue, Triangle;
    NoneSpent(n);
  }

  /** A step that only moves one request between phases other than Waiting and Leading. */
  lemma QuietMoveKeepsInvariant(s: Status, r: nat, p: Phase)
    requires Inv(s) && r < |s.phase| && !s.phase[r].Waiting? && !s.phase[r].Leading? && !p.Waiting? && !p.Leading?
    ensures Inv(s.(phase := s.phase[r := p]))
  {
  }

  lemma QueueKeepsSingleFlight(s: Status, r: nat)
    requires Inv(s) && Enabled(s, Unauthorised(r)) && !s.retry[r] && s.isRefreshing
    ensures SingleFlight(Step(s, Unauthorised(r)))
  {
  }

  lemma QueueKeepsSettledOnce(s: Status, r: nat)
    requires Inv(s) && Enabled(s, Unauthorised(r)) && !s.retry[r] && s.isRefreshing
    ensures SettledOnce(Step(s, Unauthorised(r)))
  {
  }

  lemma {:induction false} LeadKeepsInvariant(s: Status, r: nat)
    requires Inv(s) && Enabled(s, Unauthorised(r)) && !s.retry[r] && !s.isRefreshing
    ensures Inv(Step(s, Unauthorised(r)))
  {
    var s' := Step(s, Unauthorised(r));
    CountTrueUpdate(s.retry, r);
    TriangleStep(Unspent(s));
  }

  lemma {:induction false} RefreshedPhases(s: Status, ok: bool, r: nat)
    requires SingleFlight(s) && s.leader == Some(r)
    ensures var target := if ok then InFlight else Done(false);
      forall i :: 0 <= i < |s.phase| ==>
        Step(s, Refreshed(ok)).phase[i] == if s.phase[i] == Waiting || i == r then target else s.phase[i]
  {
    var target := if ok then InFlight else Done(false);
    forall i | 0 <= i < |s.phase| { ReleaseAt(s.phase, s.failedQueue, target, i); }
  }

  lemma {:induction false} RefreshedKeepsSingleFlight(s: Status, ok: bool)
    requires Inv(s) && Enabled(s, Refreshed(ok))
    ensures SingleFlight(Step(s, Refreshed(ok)))
  {
    var s' := Step(s, Refreshed(ok));
    RefreshedPhases(s, ok, s.leader.value);
  }

  /** Settling a queue turns its tickets into settled ones, in order. */
  lemma {:induction false} SettlingKeepsTickets(settled: seq<Settled>, queue: seq<nat>, refresh: nat, ok: bool)
    ensures Map(TicketOf, settled + Settle(queue, refresh, ok)) == Map(TicketOf, settled) + QueueTickets(queue, refresh)
  {
    hide Settle, QueueTickets;
  }

  lemma NoTickets(refresh: nat)
    ensures QueueTickets([], refresh) == []
  {
  }

  lemma {:induction false} RefreshedKeepsSettledOnce(s: Status, ok: bool)
    requires Inv(s) && Enabled(s, Refreshed(ok))
    ensures SettledOnce(Step(s, Refreshed(ok)))
  {
    hide WithinBudget, Release, Settle, QueueTickets;
    var s' := Step(s, Refreshed(ok));
    var added := Settle(s.failedQueue, s.refreshes, ok);
    SettlingKeepsTickets(s.settled, s.failedQueue, s.refreshes, ok);
    NoTickets(s'.refreshes);
    forall x | x in s'.settled
      ensures 1 <= x.ticket.refresh <= |s'.results| && x.ok == s'.results[x.ticket.refresh - 1]
    {
      if x !in s.settled { assert x in added; }
    }
  }

  lemma {:induction false} RefreshedKeepsBudget(s: Status, ok: bool)
    requires Inv(s) && Enabled(s, Refreshed(ok))
    ensures WithinBudget(Step(s, Refreshed(ok)))
  {
    forall i | 0 <= i < |s.failedQueue| ensures !s.retry[s.failedQueue[i]] {
      assert s.failedQueue[i] in s.failedQueue;
    }
    UnsetListBound(s.retry, s.failedQueue);
  }

  lemma {:induction false} StepKeepsInvariant(s: Status, e: Event)
    requires Inv(s) && Enabled(s, e)
    ensures Inv(Step(s, e))
  {
    match e
    case Send(r) => QuietMoveKeepsInvariant(s, r, InFlight);
    case Answered(r, ok) => QuietMoveKeepsInvariant(s, r, Done(ok));
    case Unauthorised(r) =>
      if s.retry[r] {
        QuietMoveKeepsInvariant(s, r, Done(false));
      } else if s.isRefreshing {
        QueueKeepsSingleFlight(s, r);
        QueueKeepsSettledOnce(s, r);
      } else {
        LeadKeepsInvariant(s, r);
      }
    case Refreshed(ok) =>
      RefreshedKeepsSingleFlight(s, ok);
      RefreshedKeepsSettledOnce(s, ok);
      RefreshedKeepsBudget(s, ok);
  }

  // ---------------------------------------------------------------- termination

  function Weight(p: Phase): int {
    match p
    case Unsent => 3
    case InFlight => 2
    case Waiting => 1
    case Leading => 1
    case Done(_) => 0
  }

  /** Refreshes that can still end: one for each unspent retry, and the pending one. */
  function Rounds(s: Status): int { Unspent(s) + (if s.isRefreshing then 1 else 0) }

  /** Steps still possible: each round can put every request back on the wire. */
  function Remaining(s: Status): int { (|s.phase| + 1) * Rounds(s) + SumOf(s.phase, Weight) }

  lemma {:induction false} WeightsGrowByOneEach(phase: seq<Phase>, phase': seq<Phase>)
    requires |phase| == |phase'| && forall i :: 0 <= i < |phase| ==> Weight(phase'[i]) <= Weight(phase[i]) + 1
    ensures SumOf(phase', Weight) <= SumOf(phase, Weight) + |phase|
  {
    if phase == [] {
    } else {
      WeightsGrowByOneEach(phase[1..], phase'[1..]);
    }
  }

  lemma {:induction false} WeightsNonNegative(phase: seq<Phase>)
    ensures SumOf(phase, Weight) >= 0
  {
    if phase == [] {
    } else {
      WeightsNonNegative(phase[1..]);
    }
  }

  lemma {:induction false} RemainingNonNegative(s: Status)
    requires Inv(s)
    ensures Remaining(s) >= 0
  {
    CountTrueBound(s.retry);
    WeightsNonNegative(s.phase);
    ProductNonNegative(|s.phase| + 1, Rounds(s));
  }

  lemma ProductNonNegative(a: int, b: int)
    requires a >= 0 && b >= 0
    ensures a * b >= 0
  {
  }

  lemma OneRoundLess(a: int, rounds: int)
    ensures a * (rounds - 1) == a * rounds - a
  {
  }

  lemma {:induction false} RefreshedDecreases(s: Status, ok: bool)
    requires Inv(s) && Enabled(s, Refreshed(ok))
    ensures Remaining(Step(s, Refreshed(ok))) < Remaining(s)
  {
    var s' := Step(s, Refreshed(ok));
    RefreshedPhases(s, ok, s.leader.value);
    WeightsGrowByOneEach(s.phase, s'.phase);
    OneRoundLess(|s.phase| + 1, Rounds(s));
    assert Rounds(s') == Rounds(s) - 1;
  }

  lemma {:induction false} UnauthorisedDecreases(s: Status, r: nat)
    requires Inv(s) && Enabled(s, Unauthorised(r))
    ensures Remaining(Step(s, Unauthorised(r))) < Remaining(s)
  {
    var s' := Step(s, Unauthorised(r));
    SumOfUpdate(s.phase, r, s'.phase[r], Weight);
    if !s.retry[r] && !s.isRefreshing { CountTrueUpdate(s.retry, r); }
    assert Rounds(s') == Rounds(s);
  }

  /** Every step uses up at least one of the remaining steps. */
  lemma {:induction false} StepDecreases(s: Status, e: Event)
    requires Inv(s) && Enabled(s, e)
    ensures Remaining(Step(s, e)) < Remaining(s)
  {
    match e
    case Send(r) => SumOfUpdate(s.phase, r, InFlight, Weight);
    case Answered(r, ok) => SumOfUpdate(s.phase, r, Done(ok), Weight);
    case Unauthorised(r) => UnauthorisedDecreases(s, r);
    case Refreshed(ok) => RefreshedDecreases(s, ok);
  }

  // ---------------------------------------------------------------- runs

  predicate IsRun(s: Status, events: seq<Event>)
    requires WellFormed(s)
    decreases |events|
  {
    events == [] || (Enabled(s, events[0]) && WellFormed(Step(s, events[0])) && IsRun(Step(s, events[0]), events[1..]))
  }

  function Run(s: Status, events: seq<Event>): Status
    requires WellFormed(s) && IsRun(s, events)
    decreases |events|
  {
    if events == [] then s else Run(Step(s, events[0]), events[1..])
  }

  lemma {:induction false} RunKeepsInvariant(s: Status, events: seq<Event>)
    requires Inv(s) && IsRun(s, events)
    ensures Inv(Run(s, events)) && |Run(s, events).phase| == |s.phase|
    ensures |events| + Remaining(Run(s, events)) <= Remaining(s)
    decreases |events|
  {
    if events == [] {
    } else {
      StepKeepsInvariant(s, events[0]);
      StepDecreases(s, events[0]);
      RunKeepsInvariant(Step(s, events[0]), events[1..]);
    }
  }

  lemma {:induction false} FreshWeights(n: nat)
    ensures SumOf(seq(n, i => Unsent), Weight) == 3 * n
  {
    if n == 0 {
    } else {
      assert seq(n, i => Unsent)[1..] == seq(n - 1, i => Unsent);
      FreshWeights(n - 1);
    }
  }

  /** With n requests every run keeps the single-flight discipline, ends within n(n + 4) steps, and
      makes at most n refreshes and n(n + 1)/2 resends. */
  lemma {:induction false} EveryRunIsBounded(n: nat, events: seq<Event>)
    requires IsRun(Initial(n), events)
    ensures var s := Run(Initial(n), events);
      && Inv(s) && |events| <= n * (n + 4) && s.refreshes <= n && s.resends <= Triangle(n)
  {
    InitialInvariant(n);
    RunKeepsInvariant(Initial(n), events);
    RunKeepsLength(Initial(n), events);
    var s := Run(Initial(n), events);
    RemainingNonNegative(s);
    InitialRemaining(n);
    BudgetBound(s);
  }

  lemma {:induction false} BudgetBound(s: Status)
    requires WithinBudget(s)
    ensures s.refreshes <= |s.retry| && s.resends <= Triangle(|s.retry|)
  {
    CountTrueBound(s.retry);
    ProductNonNegative(Unspent(s), Unspent(s) + 1);
  }

  lemma {:induction false} InitialRemaining(n: nat)
    ensures Remaining(Initial(n)) == n * (n + 4)
  {
    NoneSpent(n);
    FreshWeights(n);
    assert (n + 1) * n + 3 * n == n * (n + 4);
  }

  lemma {:induction false} RunKeepsLength(s: Status, events: seq<Event>)
    requires WellFormed(s) && IsRun(s, events)
    ensures |Run(s, events).retry| == |s.retry|
    decreases |events|
  {
    if events == [] {
    } else {
      RunKeepsLength(Step(s, events[0]), events[1..]);
    }
  }

  /** Nothing is left hanging: while some request is unsettled, a step is possible. */
  lemma {:induction false} NeverStuck(s: Status, r: nat) returns (e: Event)
    requires Inv(s) && r < |s.phase| && !s.phase[r].Done?
    ensures Enabled(s, e)
  {
    match s.phase[r]
    case Unsent => e := Send(r);
    case InFlight => e := Answered(r, true);
    case Leading => e := Refreshed(true);
    case Waiting => e := Refreshed(true);
  }

  /** A request reaches its second 401 rejected: the retry flag survives the resend. */
  lemma {:induction false} RetryFlagSurvives(s: Status, events: seq<Event>, r: nat)
    requires Inv(s) && IsRun(s, events) && r < |s.retry| && s.retry[r]
    ensures r < |Run(s, events).retry| && Run(s, events).retry[r]
    decreases |events|
  {
    if events == [] {
    } else {
      StepKeepsInvariant(s, events[0]);
      RetryFlagSurvives(Step(s, events[0]), events[1..], r);
    }
  }

  // ---------------------------------------------------------------- what callers are told

  /** The event settles the request for its caller: its own answer, a 401 after its retry is spent, or
      the failure of the refresh it leads or waits on. */
  ghost predicate Settles(s: Status, e: Event, r: nat, ok: bool)
    requires r < |s.phase| && r < |s.retry|
  {
    || e == Answered(r, ok)
    || (!ok && e == Unauthorised(r) && s.retry[r])
    || (!ok && e == Refreshed(false) && (s.phase[r] == Leading || s.phase[r] == Waiting))
  }

  /** A request not yet settled is settled by exactly these events, and a settled one stays as it is. */
  lemma {:induction false} StepSettlesIff(s: Status, e: Event, r: nat, ok: bool)
    requires Inv(s) && Enabled(s, e) && r < |s.phase|
    ensures !s.phase[r].Done? ==> (Step(s, e).phase[r] == Done(ok) <==> Settles(s, e, r, ok))
    ensures s.phase[r].Done? ==> Step(s, e).phase[r] == s.phase[r] && !Settles(s, e, r, ok)
  {
    if e.Refreshed? { RefreshedPhases(s, e.ok, s.leader.value); }
  }

  /** Some event of the run settles the request. */
  ghost predicate SettledIn(s: Status, events: seq<Event>, r: nat, ok: bool)
    requires WellFormed(s) && IsRun(s, events) && r < |s.phase|
    decreases |events|
  {
    events != [] && (Settles(s, events[0], r, ok) || SettledIn(Step(s, events[0]), events[1..], r, ok))
  }

  lemma {:induction false} DoneIsFinal(s: Status, events: seq<Event>, r: nat, ok: bool)
    requires Inv(s) && IsRun(s, events) && r < |s.phase| && s.phase[r].Done?
    ensures |Run(s, events).phase| == |s.phase| && Run(s, events).phase[r] == s.phase[r]
    ensures !SettledIn(s, events, r, ok)
    decreases |events|
  {
    hide SettledOnce, WithinBudget, Settles;
    if events == [] {
    } else {
      StepKeepsInvariant(s, events[0]);
      StepSettlesIff(s, events[0], r, ok);
      DoneIsFinal(Step(s, events[0]), events[1..], r, ok);
    }
  }

  /** Over every run: a caller is told an outcome if and only if an event of the run settled its request
      with that outcome. */
  lemma {:induction false} ToldIffSettled(s: Status, events: seq<Event>, r: nat, ok: bool)
    requires Inv(s) && IsRun(s, events) && r < |s.phase| && !s.phase[r].Done?
    ensures |Run(s, events).phase| == |s.phase|
    ensures Run(s, events).phase[r] == Done(ok) <==> SettledIn(s, events, r, ok)
    decreases |events|
  {
    hide SettledOnce, WithinBudget, Settles;
    if events == [] {
    } else {
      var next, rest := Step(s, events[0]), events[1..];
      StepKeepsInvariant(s, events[0]);
      StepSettlesIff(s, events[0], r, ok);
      if next.phase[r].Done? { DoneIsFinal(next, rest, r, ok); } else { ToldIffSettled(next, rest, r, ok); }
    }
  }

  /** In particular a request is reported as a success exactly when it was answered as one. */
  lemma {:induction false} SuccessIffAnswered(n: nat, events: seq<Event>, r: nat)
    requires IsRun(Initial(n), events) && r < n
    ensures |Run(Initial(n), events).phase| == n
    ensures Run(Initial(n), events).phase[r] == Done(true) <==> Answered(r, true) in events
  {
    hide Inv;
    InitialInvariant(n);
    ToldIffSettled(Initial(n), events, r, true);
    AnsweredIsSettled(Initial(n), events, r);
  }

  lemma {:induction false} AnsweredIsSettled(s: Status, events: seq<Event>, r: nat)
    requires WellFormed(s) && IsRun(s, events) && r < |s.phase|
    ensures SettledIn(s, events, r, true) <==> Answered(r, true) in events
    decreases |events|
  {
    hide Enabled, WellFormed;
    if events == [] {
    } else {
      StepKeepsSize(s, events[0]);
      AnsweredIsSettled(Step(s, events[0]), events[1..], r);
      assert events == [events[0]] + events[1..];
    }
  }

  lemma StepKeepsSize(s: Status, e: Event)
    requires WellFormed(s) && Enabled(s, e)
    ensures |Step(s, e).phase| == |s.phase|
  {
  }

  lemma ReleaseStep(phase: seq<Phase>, queue: seq<nat>, i: nat, p: Phase)
    requires InRange(queue, |phase|) && i < |queue|
    ensures Release(phase, queue[i..], p) == Release(phase[queue[i] := p], queue[i + 1..], p)
  {
  }

  // ---------------------------------------------------------------- the interceptor

  /** The handlers as the module runs them. */
  class Interceptor {
    var isRefreshing: bool
    var failedQueue: seq<nat>
    var retry: seq<bool>
    var phase: seq<Phase>
    var leader: Option<nat>
    ghost var refreshes: nat
    ghost var resends: nat
    ghost var waits: seq<Ticket>
    ghost var settled: seq<Settled>
    ghost var results: seq<bool>

    ghost function View(): Status
      reads this
    {
      Status(isRefreshing, failedQueue, retry, phase, leader, refreshes, resends, waits, settled, results)
    }

    constructor (n: nat)
      ensures View() == Initial(n)
    {
      isRefreshing, failedQueue, leader := false, [], None;
      retry, phase := seq(n, i => false), seq(n, i => Unsent);
      refreshes, resends, waits, settled, results := 0, 0, [], [], [];
    }

    method Send(r: nat)
      requires r < |phase| && phase[r] == Unsent && WellFormed(View())
      modifies this
      ensures View() == Step(old(View()), Event.Send(r))
    {
      phase := phase[r := InFlight];
    }

    /** The response handler for a success or an error other than 401. */
    method OnAnswered(r: nat, ok: bool)
      requires r < |phase| && phase[r] == InFlight && WellFormed(View())
      modifies this
      ensures View() == Step(old(View()), Answered(r, ok))
    {
      phase := phase[r := Done(ok)];
    }

    /** The response handler for a 401, up to its `await`. */
    method OnUnauthorised(r: nat)
      requires r < |phase| && phase[r] == InFlight && WellFormed(View())
      modifies this
      ensures View() == Step(old(View()), Unauthorised(r))
    {
      if retry[r] {
        phase := phase[r := Done(false)];
        return;
      }
      if isRefreshing {
        failedQueue := failedQueue + [r];
        phase := phase[r := Waiting];
        waits := waits + [Ticket(r, refreshes)];
        return;
      }
      retry := retry[r := true];
      isRefreshing := true;
      leader := Some(r);
      phase := phase[r := Leading];
      refreshes := refreshes + 1;
    }

    /** Resolve or reject everyone in the queue, then empty it. */
    method ProcessQueue(ok: bool)
      requires WellFormed(View())
      modifies this`phase, this`failedQueue, this`settled
      ensures phase == Release(old(phase), old(failedQueue), if ok then InFlight else Done(false))
      ensures failedQueue == []
      ensures settled == old(settled) + Settle(old(failedQueue), refreshes, ok)
    {
      hide Settle;
      var target := if ok then InFlight else Done(false);
      ghost var queue, phase0, settled0 := failedQueue, phase, settled;
      for i := 0 to |failedQueue|
        invariant |phase| == |phase0| && failedQueue == queue && InRange(queue, |phase|)
        invariant Release(phase, queue[i..], target) == Release(phase0, queue, target)
        invariant settled == settled0 + Settle(queue, refreshes, ok)[..i]
      {
        var p := failedQueue[i];
        ReleaseStep(phase, queue, i, target);
        phase := phase[p := target];
        settled := settled + [Settled(Ticket(p, refreshes), ok)];
      }
      failedQueue := [];
    }

    /** The rest of the leader's handler once the refresh has ended, `finally` included. */
    method OnRefreshed(ok: bool)
      requires leader.Some? && WellFormed(View())
      modifies this
      ensures View() == Step(old(View()), Refreshed(ok))
    {
      var original := leader.value;
      resends := if ok then resends + |failedQueue| + 1 else resends;
      ProcessQueue(ok);
      phase := phase[original := if ok then InFlight else Done(false)];
      leader := None;
      isRefreshing := false;
      results := results + [ok];
    }
  }
}
