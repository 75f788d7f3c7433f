/** Splitting one payment over the open charges of an account
    (server/src/utils/payment-allocation.ts). Money is in integer pennies, dates in milliseconds. */
module PaymentAllocation {
  import opened Prelude
  import opened Sorting

  datatype Charge = Charge(
    id: string,
    invoiceId: Option<string>,
    amount: int,
    alreadyAllocated: int,
    dueDate: Option<int>,
    createdAt: Option<int>)

  datatype Line = Line(
    chargeLineId: string,
    invoiceId: Option<string>,
    outstandingBefore: int,
    amount: int,
    fullyCovered: bool)

  function NonNegative(v: int): int { if v < 0 then 0 else v }

  function OutstandingFor(c: Charge): (r: int)
    ensures r >= 0
  {
    NonNegative(NonNegative(c.amount) - NonNegative(c.alreadyAllocated))
  }

  /** A negative prior allocation counts as none, and no charge owes less than nothing. */
  lemma OutstandingMeans(c: Charge)
    ensures c.alreadyAllocated >= 0 ==> OutstandingFor(c) == Max(0, c.amount - c.alreadyAllocated)
    ensures c.alreadyAllocated <= 0 ==> OutstandingFor(c) == Max(0, c.amount)
  {
  }

  function LineAmount(l: Line): int { l.amount }

  function TotalAllocated(lines: seq<Line>): int { SumOf(lines, LineAmount) }

  function TotalOutstanding(charges: seq<Charge>): int { SumOf(charges, OutstandingFor) }

  lemma {:induction false} TotalOutstandingNonNegative(charges: seq<Charge>)
    ensures TotalOutstanding(charges) >= 0
  {
    if charges == [] {
    } else {
      TotalOutstandingNonNegative(charges[1..]);
    }
  }

  // ---------------------------------------------------------------- the FIFO order

  /** A missing date counts as positive infinity. */
  function CompareInstant(a: Option<int>, b: Option<int>): int {
    match (a, b)
    case (Some(x), Some(y)) => x - y
    case (Some(_), None) => -1
    case (None, Some(_)) => 1
    case (None, None) => 0
  }

  function CompareForFifo(a: Charge, b: Charge): int {
    if CompareInstant(a.dueDate, b.dueDate) != 0 then CompareInstant(a.dueDate, b.dueDate)
    else if CompareInstant(a.createdAt, b.createdAt) != 0 then CompareInstant(a.createdAt, b.createdAt)
    else if a.id == b.id then 0
    else if TextLeq(a.id, b.id) then -1 else 1
  }

  predicate FifoLeq(a: Charge, b: Charge) { CompareForFifo(a, b) <= 0 }

  lemma {:induction false} FifoLeqIsTotalPreorder()
    ensures TotalPreorder(FifoLeq)
  {
    forall a, b ensures FifoLeq(a, b) || FifoLeq(b, a) { TextLeqTotal(a.id, b.id); }
    forall a, b, c | FifoLeq(a, b) && FifoLeq(b, c) ensures FifoLeq(a, c) {
      if TextLeq(a.id, b.id) && TextLeq(b.id, c.id) { TextLeqTransitive(a.id, b.id, c.id); }
    }
  }

  function FifoOrder(charges: seq<Charge>): seq<Charge> { Sort(FifoLeq, charges) }

  /** The first date is no later than the second, a missing date being later than any other. */
  predicate NoLater(x: Option<int>, y: Option<int>) { y.None? || (x.Some? && x.value <= y.value) }

  /** What the order promises of a charge and any that follows it: earlier due date first, then earlier
      creation date, then smaller id. */
  ghost predicate MayPrecede(a: Charge, b: Charge) {
    && NoLater(a.dueDate, b.dueDate)
    && (a.dueDate == b.dueDate ==> NoLater(a.createdAt, b.createdAt))
    && (a.dueDate == b.dueDate && a.createdAt == b.createdAt ==> TextLeq(a.id, b.id))
  }

  /** The comparator of the source tells exactly that. */
  lemma {:induction false} FifoLeqByFields(a: Charge, b: Charge)
    ensures FifoLeq(a, b) <==> MayPrecede(a, b)
  {
    if a.id == b.id { TextLeqTotal(a.id, b.id); }
  }

  /** The order is a permutation of the charges sorted by due date, creation date and id. */
  lemma {:induction false} FifoOrderIsSorted(charges: seq<Charge>)
    ensures multiset(FifoOrder(charges)) == multiset(charges) && |FifoOrder(charges)| == |charges|
    ensures SortedBy(FifoLeq, FifoOrder(charges)) && SortedBy(MayPrecede, FifoOrder(charges))
  {
    FifoLeqIsTotalPreorder();
    SortPermutes(FifoLeq, charges);
    SortSorts(FifoLeq, charges);
    var s := FifoOrder(charges);
    forall i, j | 0 <= i < j < |s| ensures MayPrecede(s[i], s[j]) { FifoLeqByFields(s[i], s[j]); }
  }

  ghost predicate DistinctIds(charges: seq<Charge>) {
    forall i, j :: 0 <= i < j < |charges| ==> charges[i].id != charges[j].id
  }

  /** Only charges with the same id tie. */
  lemma {:induction false} FifoTies(a: Charge, b: Charge)
    requires FifoLeq(a, b) && FifoLeq(b, a)
    ensures a.id == b.id
  {
    if TextLeq(a.id, b.id) && TextLeq(b.id, a.id) { TextLeqAntisymmetric(a.id, b.id); }
  }

  lemma {:induction false} FifoOrderDeterministic(charges: seq<Charge>, shuffled: seq<Charge>)
    requires DistinctIds(charges) && multiset(charges) == multiset(shuffled)
    ensures FifoOrder(charges) == FifoOrder(shuffled)
  {
    FifoOrderIsSorted(charges);
    FifoOrderIsSorted(shuffled);
    var s := FifoOrder(charges);
    forall a, b | a in s && b in s && FifoLeq(a, b) && FifoLeq(b, a) ensures a == b {
      assert a in multiset(s) && b in multiset(s);
      FifoTies(a, b);
    }
    SortedUnique(FifoLeq, s, FifoOrder(shuffled));
  }

  lemma {:induction false} DistinctIdsCount(charges: seq<Charge>, c: Charge)
    requires DistinctIds(charges)
    ensures multiset(charges)[c] <= 1
  {
    if charges == [] {
    } else {
      var tail := charges[1..];
      assert DistinctIds(tail) by {
        forall i, j | 0 <= i < j < |tail| ensures tail[i].id != tail[j].id {
          assert tail[i] == charges[i + 1] && tail[j] == charges[j + 1];
        }
      }
      DistinctIdsCount(tail, c);
      MultisetTail(charges);
      if c in tail { assert c != charges[0]; }
    }
  }

  lemma {:induction false} TwiceCounts(s: seq<Charge>, i: nat, j: nat)
    requires i < j < |s| && s[i] == s[j]
    ensures multiset(s)[s[i]] >= 2
  {
    assert s == s[..j] + s[j..];
    assert s[..j][i] == s[i] && s[j..][0] == s[i];
    assert s[i] in multiset(s[..j]) && s[i] in multiset(s[j..]);
  }

  lemma {:induction false} DistinctIdsPermute(charges: seq<Charge>, shuffled: seq<Charge>)
    requires DistinctIds(charges) && multiset(charges) == multiset(shuffled)
    ensures DistinctIds(shuffled)
  {
    forall i, j | 0 <= i < j < |shuffled| ensures shuffled[i].id != shuffled[j].id {
      assert shuffled[i] in multiset(charges) && shuffled[j] in multiset(charges);
      DistinctIdsCount(charges, shuffled[i]);
      if shuffled[i] == shuffled[j] { TwiceCounts(shuffled, i, j); }
    }
  }

  // ---------------------------------------------------------------- FIFO allocation

  /** The allocation lines of a walk over `sorted` with `remaining` pennies left. */
  function FifoWalk(sorted: seq<Charge>, remaining: int): seq<Line> {
    if sorted == [] then []
    else
      var c, outstanding := sorted[0], OutstandingFor(sorted[0]);
      if outstanding == 0 then FifoWalk(sorted[1..], remaining)
      else if remaining <= 0 then
        [Line(c.id, c.invoiceId, outstanding, 0, false)] + FifoWalk(sorted[1..], remaining)
      else
        var applied := Min(remaining, outstanding);
        [Line(c.id, c.invoiceId, outstanding, applied, applied >= outstanding)]
        + FifoWalk(sorted[1..], remaining - applied)
  }

  /** What the loop does at position `i`. */
  lemma {:induction false} WalkFrom(sorted: seq<Charge>, i: nat, remaining: int)
    requires i < |sorted|
    ensures var c, outstanding := sorted[i], OutstandingFor(sorted[i]);
      var applied := if remaining <= 0 then 0 else Min(remaining, outstanding);
      var l := Line(c.id, c.invoiceId, outstanding, applied, remaining > 0 && applied >= outstanding);
      FifoWalk(sorted[i..], remaining)
      == (if outstanding == 0 then [] else [l])
         + FifoWalk(sorted[i + 1..], if outstanding == 0 then remaining else remaining - applied)
  {
    assert sorted[i..][0] == sorted[i] && sorted[i..][1..] == sorted[i + 1..];
  }

  lemma WalkOfNothing(remaining: int)
    ensures FifoWalk([], remaining) == []
  {
  }

  method AllocateFifo(paymentAmount: int, openCharges: seq<Charge>) returns (allocations: seq<Line>)
    ensures allocations == FifoWalk(FifoOrder(openCharges), paymentAmount)
  {
    hide FifoOrder, FifoWalk, OutstandingFor;
    var sorted := FifoOrder(openCharges);
    allocations := [];
    var remaining := paymentAmount;
    assert sorted[0..] == sorted;
    for i := 0 to |sorted|
      invariant allocations + FifoWalk(sorted[i..], remaining) == FifoWalk(sorted, paymentAmount)
    {
      var charge := sorted[i];
      var outstanding := OutstandingFor(charge);
      WalkFrom(sorted, i, remaining);
      if outstanding == 0 { continue; }
      if remaining <= 0 {
        allocations := allocations + [Line(charge.id, charge.invoiceId, outstanding, 0, false)];
        continue;
      }
      var applied := Min(remaining, outstanding);
      allocations := allocations
        + [Line(charge.id, charge.invoiceId, outstanding, applied, applied >= outstanding)];
      remaining := remaining - applied;
    }
    assert sorted[|sorted|..] == [];
    WalkOfNothing(remaining);
  }

  function IsOpen(c: Charge): bool { OutstandingFor(c) > 0 }

  /** The charges that still owe something, in FIFO order. */
  function Owing(sorted: seq<Charge>): seq<Charge> {
    if sorted == [] then []
    else (if IsOpen(sorted[0]) then [sorted[0]] else []) + Owing(sorted[1..])
  }

  lemma {:induction false} OwingKeepsExactlyTheOwing(sorted: seq<Charge>, c: Charge)
    ensures multiset(Owing(sorted))[c] == if IsOpen(c) then multiset(sorted)[c] else 0
  {
    if sorted == [] {
    } else {
      OwingKeepsExactlyTheOwing(sorted[1..], c);
      assert sorted == [sorted[0]] + sorted[1..];
    }
  }

  lemma {:induction false} OwingSorted(sorted: seq<Charge>)
    requires SortedBy(FifoLeq, sorted)
    ensures SortedBy(FifoLeq, Owing(sorted))
    ensures forall c :: c in Owing(sorted) ==> c in sorted
  {
    if sorted == [] {
    } else {
      OwingSorted(sorted[1..]);
      forall c | c in sorted[1..] ensures FifoLeq(sorted[0], c) {
        var k :| 0 <= k < |sorted[1..]| && sorted[1..][k] == c;
        assert c == sorted[k + 1];
      }
    }
  }

  /** Pennies owed by the first `k` charges of the list. */
  function OwedBefore(owing: seq<Charge>, k: nat): int
    requires k <= |owing|
  {
    TotalOutstanding(owing[..k])
  }

  /** What the k-th charge receives, without reference to the walk: whatever the earlier charges
      leave of the payment, cut to the range from nothing to the charge's own debt. */
  function Waterfall(owing: seq<Charge>, payment: int, k: nat): int
    requires k < |owing|
  {
    Max(0, Min(OutstandingFor(owing[k]), payment - OwedBefore(owing, k)))
  }

  lemma WaterfallHead(owing: seq<Charge>, payment: int)
    requires owing != []
    ensures Waterfall(owing, payment, 0) == Min(NonNegative(payment), OutstandingFor(owing[0]))
  {
  }

  lemma {:induction false} WaterfallStep(owing: seq<Charge>, payment: int, k: nat)
    requires k + 1 < |owing| && OutstandingFor(owing[0]) > 0
    ensures Waterfall(owing, payment, k + 1)
         == Waterfall(owing[1..], payment - Min(NonNegative(payment), OutstandingFor(owing[0])), k)
  {
    assert owing[..k + 1][1..] == owing[1..][..k];
    TotalOutstandingNonNegative(owing[1..][..k]);
  }

  /** The line of a charge that receives `amount`. */
  ghost predicate FifoLine(l: Line, c: Charge, amount: int) {
    && l == Line(c.id, c.invoiceId, OutstandingFor(c), amount, l.fullyCovered)
    && l.fullyCovered == (l.amount == l.outstandingBefore)
    && l.outstandingBefore > 0
  }

  lemma {:induction false} FirstLine(sorted: seq<Charge>, payment: int)
    requires sorted != [] && IsOpen(sorted[0])
    ensures var c, lines := sorted[0], FifoWalk(sorted, payment);
      var applied := Min(NonNegative(payment), OutstandingFor(c));
      lines != [] && FifoLine(lines[0], c, applied) && lines[1..] == FifoWalk(sorted[1..], payment - applied)
  {
  }

  lemma WalkSkips(sorted: seq<Charge>, payment: int)
    requires sorted != [] && !IsOpen(sorted[0])
    ensures FifoWalk(sorted, payment) == FifoWalk(sorted[1..], payment)
  {
  }

  lemma OwingUnfolds(sorted: seq<Charge>)
    ensures Owing(sorted) == if sorted == [] then [] else if IsOpen(sorted[0]) then [sorted[0]] + Owing(sorted[1..])
                             else Owing(sorted[1..])
    ensures sorted != [] && IsOpen(sorted[0]) ==> OutstandingFor(sorted[0]) > 0
  {
  }

  /** Every FIFO line is pinned down: one per owing charge, in order, with the waterfall amount. */
  lemma {:induction false} FifoWalkIsWaterfall(sorted: seq<Charge>, payment: int)
    ensures |FifoWalk(sorted, payment)| == |Owing(sorted)|
    ensures forall k :: 0 <= k < |Owing(sorted)| ==>
              FifoLine(FifoWalk(sorted, payment)[k], Owing(sorted)[k], Waterfall(Owing(sorted), payment, k))
  {
    hide Waterfall, OutstandingFor, FifoLine, FifoWalk, Owing, IsOpen;
    OwingUnfolds(sorted);
    if sorted == [] {
      WalkOfNothing(payment);
    } else if !IsOpen(sorted[0]) {
      FifoWalkIsWaterfall(sorted[1..], payment);
      WalkSkips(sorted, payment);
    } else {
      var owing, lines := Owing(sorted), FifoWalk(sorted, payment);
      var left := payment - Min(NonNegative(payment), OutstandingFor(sorted[0]));
      FirstLine(sorted, payment);
      FifoWalkIsWaterfall(sorted[1..], left);
      assert owing == [sorted[0]] + Owing(sorted[1..]) && owing[1..] == Owing(sorted[1..]);
      forall k | 0 <= k < |owing| ensures FifoLine(lines[k], owing[k], Waterfall(owing, payment, k)) {
        if k == 0 {
          WaterfallHead(owing, payment);
        } else {
          WaterfallStep(owing, payment, k - 1);
          assert lines[k] == lines[1..][k - 1] && owing[k] == owing[1..][k - 1];
        }
      }
    }
  }

  /** A charge is reached only when every earlier debt is met in full. */
  lemma {:induction false} WaterfallShape(owing: seq<Charge>, payment: int, j: nat, k: nat)
    requires j < k < |owing|
    ensures Waterfall(owing, payment, k) > 0 ==> Waterfall(owing, payment, j) == OutstandingFor(owing[j])
    ensures Waterfall(owing, payment, j) != OutstandingFor(owing[j]) ==> Waterfall(owing, payment, k) == 0
  {
    assert owing[..k] == owing[..j] + [owing[j]] + owing[j + 1..k];
    SumOfAppend(owing[..j] + [owing[j]], owing[j + 1..k], OutstandingFor);
    SumOfAppend(owing[..j], [owing[j]], OutstandingFor);
    TotalOutstandingNonNegative(owing[j + 1..k]);
    assert OwedBefore(owing, j) + OutstandingFor(owing[j]) <= OwedBefore(owing, k);
  }

  /** The shape promised for FIFO: a fully covered prefix, at most one partly covered line, then
      lines that receive nothing. */
  lemma {:induction false} FifoShape(sorted: seq<Charge>, payment: int, lines: seq<Line>)
    requires lines == FifoWalk(sorted, payment)
    ensures forall k :: 0 <= k < |lines| ==> 0 <= lines[k].amount <= lines[k].outstandingBefore
    ensures forall j, k :: 0 <= j < k < |lines| && lines[k].amount > 0 ==> lines[j].fullyCovered
    ensures forall j, k :: 0 <= j < k < |lines| && !lines[j].fullyCovered ==> lines[k].amount == 0
  {
    FifoWalkIsWaterfall(sorted, payment);
    forall j, k | 0 <= j < k < |lines|
      ensures lines[k].amount > 0 ==> lines[j].fullyCovered
      ensures !lines[j].fullyCovered ==> lines[k].amount == 0
    {
      WaterfallShape(Owing(sorted), payment, j, k);
    }
  }

  /** Conservation: FIFO hands out the payment or the whole debt, whichever is smaller. */
  lemma {:induction false} FifoConserves(sorted: seq<Charge>, payment: int)
    ensures TotalAllocated(FifoWalk(sorted, payment)) == Min(NonNegative(payment), TotalOutstanding(sorted))
  {
    TotalOutstandingNonNegative(sorted);
    if sorted == [] {
    } else {
      var outstanding := OutstandingFor(sorted[0]);
      var applied := if payment <= 0 then 0 else Min(payment, outstanding);
      FifoConserves(sorted[1..], payment - applied);
      TotalOutstandingNonNegative(sorted[1..]);
    }
  }

  // ---------------------------------------------------------------- payments compose

  /** Pennies that `lines` give to the charge with this id. */
  function AllocatedTo(lines: seq<Line>, id: string): int {
    if lines == [] then 0
    else (if lines[0].chargeLineId == id then lines[0].amount else 0) + AllocatedTo(lines[1..], id)
  }

  function Carry(lines: seq<Line>): Charge -> Charge {
    (c: Charge) => c.(alreadyAllocated := c.alreadyAllocated + AllocatedTo(lines, c.id))
  }

  /** The charges as the next payment sees them. */
  function CarryForward(charges: seq<Charge>, lines: seq<Line>): seq<Charge> { Map(Carry(lines), charges) }

  datatype Settlement = Settlement(charges: seq<Charge>, leftover: int)

  /** One FIFO payment: the charges it leaves behind and the part that lands nowhere. */
  function Pay(charges: seq<Charge>, payment: int): Settlement {
    var lines := FifoWalk(FifoOrder(charges), NonNegative(payment));
    Settlement(CarryForward(charges, lines), NonNegative(payment) - TotalAllocated(lines))
  }

  /** Payments in sequence, leftovers accumulating on the account. */
  function PayAll(charges: seq<Charge>, payments: seq<int>): Settlement
    decreases |payments|
  {
    if payments == [] then Settlement(charges, 0)
    else
      var first := Pay(charges, payments[0]);
      var rest := PayAll(first.charges, payments[1..]);
      Settlement(rest.charges, first.leftover + rest.leftover)
  }

  /** No charge that owes anything has a negative amount recorded as already allocated. */
  ghost predicate PriorAllocationsValid(charges: seq<Charge>) {
    forall c :: c in charges && IsOpen(c) ==> c.alreadyAllocated >= 0
  }

  function Taken(c: Charge, r: int): int { Min(NonNegative(r), OutstandingFor(c)) }

  function Take(c: Charge, r: int): Charge { c.(alreadyAllocated := c.alreadyAllocated + Taken(c, r)) }

  /** The waterfall written directly on the charges: each takes what it can of `r`. */
  function Fill(sorted: seq<Charge>, r: int): seq<Charge> {
    if sorted == [] then []
    else [Take(sorted[0], r)] + Fill(sorted[1..], r - Taken(sorted[0], r))
  }

  lemma {:induction false} WalkGivesNothingToStrangers(sorted: seq<Charge>, r: int, id: string)
    requires forall c :: c in sorted ==> c.id != id
    ensures AllocatedTo(FifoWalk(sorted, r), id) == 0
  {
    if sorted == [] {
    } else {
      var applied := Min(NonNegative(r), OutstandingFor(sorted[0]));
      WalkGivesNothingToStrangers(sorted[1..], r, id);
      WalkGivesNothingToStrangers(sorted[1..], r - applied, id);
    }
  }

  lemma CarryAgrees(charges: seq<Charge>, lines: seq<Line>, others: seq<Line>)
    requires forall c :: c in charges ==> AllocatedTo(lines, c.id) == AllocatedTo(others, c.id)
    ensures CarryForward(charges, lines) == CarryForward(charges, others)
  {
  }

  /** What the walk gives to any id: what the first charge takes, and the rest of the walk. */
  lemma WalkGivesFirst(sorted: seq<Charge>, r: int, id: string)
    requires sorted != []
    ensures AllocatedTo(FifoWalk(sorted, r), id)
         == (if sorted[0].id == id then Taken(sorted[0], r) else 0)
            + AllocatedTo(FifoWalk(sorted[1..], r - Taken(sorted[0], r)), id)
  {
  }

  lemma {:induction false} WalkOfNoMoney(sorted: seq<Charge>, r: int, id: string)
    requires r <= 0
    ensures AllocatedTo(FifoWalk(sorted, r), id) == 0
  {
    if sorted == [] {
    } else {
      WalkOfNoMoney(sorted[1..], r, id);
    }
  }

  lemma TailDistinct(charges: seq<Charge>)
    requires DistinctIds(charges) && charges != []
    ensures DistinctIds(charges[1..])
    ensures forall c :: c in charges[1..] ==> c.id != charges[0].id
  {
  }

  /** Of two charges in the list the later one receives money only when the earlier is met in full. */
  lemma {:induction false} WalkFeedsInOrder(sorted: seq<Charge>, r: int, i: nat, j: nat)
    requires DistinctIds(sorted) && i < j < |sorted| && AllocatedTo(FifoWalk(sorted, r), sorted[j].id) > 0
    ensures AllocatedTo(FifoWalk(sorted, r), sorted[i].id) == OutstandingFor(sorted[i])
  {
    hide FifoWalk, AllocatedTo, OutstandingFor, DistinctIds;
    var tail, left := sorted[1..], r - Taken(sorted[0], r);
    TailDistinct(sorted);
    assert sorted[j] == tail[j - 1] && tail[j - 1] in tail;
    WalkGivesFirst(sorted, r, sorted[j].id);
    WalkGivesFirst(sorted, r, sorted[i].id);
    if i == 0 {
      WalkGivesNothingToStrangers(tail, left, sorted[0].id);
      if left <= 0 { WalkOfNoMoney(tail, left, sorted[j].id); }
    } else {
      assert sorted[i] == tail[i - 1] && tail[i - 1] in tail;
      WalkFeedsInOrder(tail, left, i - 1, j - 1);
    }
  }

  /** So a charge receives money only when every charge with an earlier due date, or as early a due date
      and an earlier creation date, is met in full. */
  lemma {:induction false} EarlierDebtsFirst(charges: seq<Charge>, payment: int, c: Charge, d: Charge)
    requires DistinctIds(charges) && c in charges && d in charges && c != d && MayPrecede(c, d)
    requires AllocatedTo(FifoWalk(FifoOrder(charges), payment), d.id) > 0
    ensures AllocatedTo(FifoWalk(FifoOrder(charges), payment), c.id) == OutstandingFor(c)
  {
    hide FifoWalk, OutstandingFor, MayPrecede;
    var sorted := FifoOrder(charges);
    FifoOrderIsSorted(charges);
    DistinctIdsPermute(charges, sorted);
    assert c in multiset(sorted) && d in multiset(sorted);
    var i :| 0 <= i < |sorted| && sorted[i] == c;
    var j :| 0 <= j < |sorted| && sorted[j] == d;
    FifoLeqByFields(c, d);
    if j < i { FifoTies(c, d); }
    WalkFeedsInOrder(sorted, payment, i, j);
  }

  lemma {:induction false} FillIsCarry(sorted: seq<Charge>, r: int)
    requires DistinctIds(sorted)
    ensures CarryForward(sorted, FifoWalk(sorted, r)) == Fill(sorted, r)
  {
    hide FifoWalk, Taken, OutstandingFor, AllocatedTo;
    if sorted == [] {
    } else {
      var c, tail := sorted[0], sorted[1..];
      var lines, rest := FifoWalk(sorted, r), FifoWalk(tail, r - Taken(c, r));
      forall d | d in tail ensures d.id != c.id && AllocatedTo(lines, d.id) == AllocatedTo(rest, d.id) {
        var i :| 0 <= i < |tail| && tail[i] == d;
        assert sorted[i + 1] == d;
        WalkGivesFirst(sorted, r, d.id);
      }
      WalkGivesFirst(sorted, r, c.id);
      WalkGivesNothingToStrangers(tail, r - Taken(c, r), c.id);
      assert Carry(lines)(c) == Take(c, r);
      FillIsCarry(tail, r - Taken(c, r));
      CarryAgrees(tail, lines, rest);
      MapTail(Carry(lines), sorted);
    }
  }

  lemma TakeTwice(c: Charge, p: int, q: int)
    requires p >= 0 && q >= 0 && (IsOpen(c) ==> c.alreadyAllocated >= 0)
    ensures Take(Take(c, p), q) == Take(c, p + q)
    ensures Taken(c, p) == Min(p, OutstandingFor(c)) && 0 <= Taken(Take(c, p), q) <= q
    ensures Taken(c, p) + Taken(Take(c, p), q) == Taken(c, p + q)
    ensures OutstandingFor(Take(c, p)) == OutstandingFor(c) - Taken(c, p)
  {
  }

  lemma {:induction false} FillComposes(sorted: seq<Charge>, p: int, q: int)
    requires p >= 0 && q >= 0 && PriorAllocationsValid(sorted)
    ensures Fill(Fill(sorted, p), q) == Fill(sorted, p + q)
    ensures TotalOutstanding(Fill(sorted, p)) == TotalOutstanding(sorted) - Min(p, TotalOutstanding(sorted))
  {
    hide Take, Taken, OutstandingFor, Fill, TotalOutstanding;
    FillUnfolds(sorted, p);
    if sorted == [] {
      FillUnfolds(sorted, q);
      FillUnfolds(sorted, p + q);
    } else {
      var c, tail := sorted[0], sorted[1..];
      var p', q' := p - Taken(c, p), q - Taken(Take(c, p), q);
      TakeTwice(c, p, q);
      TotalOutstandingNonNegative(tail);
      FillComposes(tail, p', q');
      FillUnfolds(sorted, p + q);
      FillUnfolds(Fill(sorted, p), q);
      assert Fill(sorted, p)[1..] == Fill(tail, p');
      TotalUnfolds(sorted);
      TotalUnfolds(Fill(sorted, p));
    }
  }

  lemma FillUnfolds(sorted: seq<Charge>, r: int)
    ensures sorted == [] ==> Fill(sorted, r) == [] && TotalOutstanding(sorted) == 0
    ensures sorted != [] ==>
              Fill(sorted, r) == [Take(sorted[0], r)] + Fill(sorted[1..], r - Taken(sorted[0], r))
  {
  }

  lemma TotalUnfolds(charges: seq<Charge>)
    requires charges != []
    ensures TotalOutstanding(charges) == OutstandingFor(charges[0]) + TotalOutstanding(charges[1..])
  {
  }

  lemma {:induction false} PayInOrder(charges: seq<Charge>, payment: int)
    requires DistinctIds(charges)
    ensures FifoOrder(Pay(charges, payment).charges) == Fill(FifoOrder(charges), NonNegative(payment))
    ensures Pay(charges, payment).leftover
         == NonNegative(payment) - Min(NonNegative(payment), TotalOutstanding(charges))
  {
    var sorted := FifoOrder(charges);
    var lines := FifoWalk(sorted, NonNegative(payment));
    FifoOrderIsSorted(charges);
    DistinctIdsPermute(charges, sorted);
    SortCommutes(FifoLeq, Carry(lines), charges);
    FillIsCarry(sorted, NonNegative(payment));
    FifoConserves(sorted, NonNegative(payment));
    SumOfPermutation(sorted, charges, OutstandingFor);
  }

  lemma {:induction false} PayKeepsIds(charges: seq<Charge>, payment: int)
    ensures var after := Pay(charges, payment).charges;
      |after| == |charges| && forall i :: 0 <= i < |charges| ==> after[i].id == charges[i].id
    ensures PriorAllocationsValid(charges) ==> PriorAllocationsValid(Pay(charges, payment).charges)
  {
    var lines := FifoWalk(FifoOrder(charges), NonNegative(payment));
    FifoShape(FifoOrder(charges), NonNegative(payment), lines);
    forall c | c in charges ensures AllocatedTo(lines, c.id) >= 0 { AllocatedNonNegative(lines, c.id); }
  }

  lemma {:induction false} AllocatedNonNegative(lines: seq<Line>, id: string)
    requires forall l :: l in lines ==> l.amount >= 0
    ensures AllocatedTo(lines, id) >= 0
  {
    if lines == [] {
    } else {
      AllocatedNonNegative(lines[1..], id);
    }
  }

  /** Rows with the same ids in the same places agree once their sorted arrangements agree. */
  lemma {:induction false} SameSortedSameRows(s: seq<Charge>, t: seq<Charge>)
    requires |s| == |t| && DistinctIds(s) && FifoOrder(s) == FifoOrder(t)
    requires forall i :: 0 <= i < |s| ==> s[i].id == t[i].id
    ensures s == t
  {
    FifoOrderIsSorted(s);
    FifoOrderIsSorted(t);
    forall i | 0 <= i < |s| ensures s[i] == t[i] {
      assert s[i] in multiset(t);
      var j :| 0 <= j < |t| && t[j] == s[i];
      assert t[j].id == s[j].id;
    }
  }

  lemma {:induction false} PayTwiceInOrder(charges: seq<Charge>, p: int, q: int)
    requires DistinctIds(charges) && PriorAllocationsValid(charges) && p >= 0 && q >= 0
    ensures var first := Pay(charges, p);
      && DistinctIds(first.charges)
      && FifoOrder(Pay(first.charges, q).charges) == Fill(FifoOrder(charges), p + q)
      && TotalOutstanding(first.charges) == TotalOutstanding(charges) - Min(p, TotalOutstanding(charges))
  {
    var first, sorted := Pay(charges, p), FifoOrder(charges);
    PayKeepsIds(charges, p);
    PayInOrder(charges, p);
    PayInOrder(first.charges, q);
    FifoOrderIsSorted(charges);
    FifoOrderIsSorted(first.charges);
    forall c | c in sorted && IsOpen(c) ensures c.alreadyAllocated >= 0 { assert c in multiset(charges); }
    FillComposes(sorted, p, q);
    SumOfPermutation(sorted, charges, OutstandingFor);
    SumOfPermutation(FifoOrder(first.charges), first.charges, OutstandingFor);
  }

  lemma {:induction false} PayTwice(charges: seq<Charge>, p: int, q: int)
    requires DistinctIds(charges) && PriorAllocationsValid(charges) && p >= 0 && q >= 0
    ensures var first, once := Pay(charges, p), Pay(charges, p + q);
      var second := Pay(first.charges, q);
      second.charges == once.charges && first.leftover + second.leftover == once.leftover
  {
    hide Pay, FifoOrder, Fill, TotalOutstanding;
    var first, once := Pay(charges, p), Pay(charges, p + q);
    var second := Pay(first.charges, q);
    PayTwiceInOrder(charges, p, q);
    assert second.charges == once.charges by {
      PayKeepsIds(charges, p);
      PayKeepsIds(first.charges, q);
      PayKeepsIds(charges, p + q);
      PayInOrder(charges, p + q);
      SameSortedSameRows(second.charges, once.charges);
    }
    PayInOrder(charges, p);
    PayInOrder(first.charges, q);
    PayInOrder(charges, p + q);
    TotalOutstandingNonNegative(charges);
  }

  lemma {:induction false} PayNothing(charges: seq<Charge>)
    ensures Pay(charges, 0) == Settlement(charges, 0)
  {
    var sorted := FifoOrder(charges);
    FifoConserves(sorted, 0);
    TotalOutstandingNonNegative(sorted);
    forall c | c in charges ensures AllocatedTo(FifoWalk(sorted, 0), c.id) == 0 {
      NothingToAllocate(sorted, c.id);
    }
    assert Pay(charges, 0).charges == charges;
  }

  lemma {:induction false} NothingToAllocate(sorted: seq<Charge>, id: string)
    ensures AllocatedTo(FifoWalk(sorted, 0), id) == 0
  {
    if sorted == [] {
    } else {
      NothingToAllocate(sorted[1..], id);
    }
  }

  function Sum(payments: seq<int>): int { SumOf(payments, NonNegative) }

  /** Any run of payments leaves every charge, and the account's credit, exactly as one
      payment of the whole sum would. */
  lemma {:induction false} PaymentsCompose(charges: seq<Charge>, payments: seq<int>)
    requires DistinctIds(charges) && PriorAllocationsValid(charges)
    ensures PayAll(charges, payments) == Pay(charges, Sum(payments))
    decreases |payments|
  {
    hide FifoOrder, FifoWalk, CarryForward, OutstandingFor, TotalAllocated;
    if payments == [] {
      PayNothing(charges);
    } else {
      var p, total := NonNegative(payments[0]), Sum(payments[1..]);
      var first := Pay(charges, p);
      assert first == Pay(charges, payments[0]);
      SumNonNegative(payments[1..]);
      PayKeepsIds(charges, p);
      PaymentsCompose(first.charges, payments[1..]);
      PayTwice(charges, p, total);
    }
  }

  lemma {:induction false} SumNonNegative(payments: seq<int>)
    ensures Sum(payments) >= 0
  {
    if payments == [] {
    } else {
      SumNonNegative(payments[1..]);
    }
  }

  lemma {:induction false} OwesAgain(sorted: seq<Charge>)
    requires sorted != [] && IsOpen(sorted[0]) && sorted[0].alreadyAllocated < 0
    ensures var p := OutstandingFor(sorted[0]); Fill(Fill(sorted, p), 1) != Fill(sorted, p + 1)
  {
    var c, p := sorted[0], OutstandingFor(sorted[0]);
    assert Fill(Fill(sorted, p), 1)[0] == Take(Take(c, p), 1);
    assert Fill(sorted, p + 1)[0] == Take(c, p + 1);
  }

  lemma MetInFull(c: Charge, p: nat, q: nat)
    requires IsOpen(c) ==> c.alreadyAllocated >= 0
    ensures var all := p + OutstandingFor(c);
      Taken(c, all) == Taken(c, all + q) == OutstandingFor(c) && Taken(Take(c, all), q) == 0
  {
  }

  /** Two payments that do not compose: the first meets everything up to the first charge with a
      negative prior allocation, which then owes again. */
  lemma {:induction false} FillFails(sorted: seq<Charge>) returns (p: nat, q: nat)
    requires !PriorAllocationsValid(sorted)
    ensures Fill(Fill(sorted, p), q) != Fill(sorted, p + q)
  {
    hide Fill, Take, Taken, OutstandingFor;
    var bad :| bad in sorted && IsOpen(bad) && bad.alreadyAllocated < 0;
    var c, tail := sorted[0], sorted[1..];
    if IsOpen(c) && c.alreadyAllocated < 0 {
      p, q := OutstandingFor(c), 1;
      OwesAgain(sorted);
    } else {
      assert sorted == [c] + tail && bad in tail;
      p, q := FillFails(tail);
      FillPastFirst(sorted, p, q);
      p := p + OutstandingFor(c);
    }
  }

  /** A payment that first meets the first debt in full reaches the others as if that were not there. */
  lemma {:induction false} FillPastFirst(sorted: seq<Charge>, p: nat, q: nat)
    requires sorted != [] && (IsOpen(sorted[0]) ==> sorted[0].alreadyAllocated >= 0)
    ensures var all := p + OutstandingFor(sorted[0]);
      && |Fill(sorted, all + q)| > 0 && Fill(sorted, all + q)[1..] == Fill(sorted[1..], p + q)
      && |Fill(Fill(sorted, all), q)| > 0 && Fill(Fill(sorted, all), q)[1..] == Fill(Fill(sorted[1..], p), q)
  {
    hide Take, Taken, OutstandingFor;
    var c, tail, all := sorted[0], sorted[1..], p + OutstandingFor(sorted[0]);
    MetInFull(c, p, q);
    assert Fill(sorted, all) == [Take(c, all)] + Fill(tail, p);
    assert Fill(Fill(sorted, all), q) == [Take(Take(c, all), q)] + Fill(Fill(tail, p), q);
  }

  /** Payments compose if and only if every prior allocation on an owing charge is non-negative. */
  lemma {:induction false} PaymentsComposeIff(charges: seq<Charge>)
    requires DistinctIds(charges)
    ensures PriorAllocationsValid(charges)
       <==> forall payments :: PayAll(charges, payments) == Pay(charges, Sum(payments))
  {
    if PriorAllocationsValid(charges) {
      forall payments { PaymentsCompose(charges, payments); }
    } else {
      var p, q := PaymentsFail(charges);
      PayBoth(charges, p, q);
    }
  }

  lemma {:induction false} PaymentsFail(charges: seq<Charge>) returns (p: nat, q: nat)
    requires DistinctIds(charges) && !PriorAllocationsValid(charges)
    ensures Pay(Pay(charges, p).charges, q).charges != Pay(charges, p + q).charges
  {
    hide Pay, Fill, FifoOrder, OutstandingFor;
    var sorted := FifoOrder(charges);
    FifoOrderIsSorted(charges);
    assert !PriorAllocationsValid(sorted) by {
      var c :| c in charges && IsOpen(c) && c.alreadyAllocated < 0;
      assert c in multiset(sorted);
    }
    p, q := FillFails(sorted);
    PayKeepsIds(charges, p);
    PayInOrder(charges, p);
    PayInOrder(Pay(charges, p).charges, q);
    PayInOrder(charges, p + q);
  }

  lemma {:induction false} PayBoth(charges: seq<Charge>, p: int, q: int)
    requires p >= 0 && q >= 0
    ensures PayAll(charges, [p, q]).charges == Pay(Pay(charges, p).charges, q).charges
    ensures Sum([p, q]) == p + q
  {
    assert [p, q][1..] == [q] && [q][1..] == [];
    assert SumOf([q], NonNegative) == NonNegative(q) + SumOf([], NonNegative);
    var second := Pay(Pay(charges, p).charges, q);
    assert PayAll(second.charges, [q][1..]) == Settlement(second.charges, 0);
    assert PayAll(Pay(charges, p).charges, [p, q][1..]).charges == second.charges;
  }

  /** So the order in which payments arrive never matters. */
  lemma {:induction false} PaymentOrderIrrelevant(charges: seq<Charge>, payments: seq<int>, reordered: seq<int>)
    requires DistinctIds(charges) && PriorAllocationsValid(charges)
    requires multiset(payments) == multiset(reordered)
    ensures PayAll(charges, payments) == PayAll(charges, reordered)
  {
    PaymentsCompose(charges, payments);
    PaymentsCompose(charges, reordered);
    SumOfPermutation(payments, reordered, NonNegative);
  }

  // ---------------------------------------------------------------- impact per invoice

  /** Lines that count towards an invoice: an empty invoice id is as good as none. */
  predicate Billable(l: Line) { l.invoiceId.Some? && l.invoiceId.value != "" && l.amount > 0 }

  function BilledAmount(l: Line): int { if Billable(l) then l.amount else 0 }

  /** Pennies that `lines` bring to one invoice. */
  function ImpactOn(lines: seq<Line>, invoiceId: string): int {
    if lines == [] then 0
    else (if Billable(lines[0]) && lines[0].invoiceId.value == invoiceId then lines[0].amount else 0)
         + ImpactOn(lines[1..], invoiceId)
  }

  lemma {:induction false} ImpactOnAppend(lines: seq<Line>, more: seq<Line>, id: string)
    ensures ImpactOn(lines + more, id) == ImpactOn(lines, id) + ImpactOn(more, id)
  {
    if lines == [] {
      assert lines + more == more;
    } else {
      assert (lines + more)[1..] == lines[1..] + more;
      ImpactOnAppend(lines[1..], more, id);
    }
  }

  datatype Impact = Impact(invoiceId: string, amount: int)

  function ImpactAmount(i: Impact): int { i.amount }

  /** Each invoice that received anything is listed once with everything it received, and the
      listed amounts add up to the invoiced part of the allocation. */
  ghost predicate IsImpactOf(impacts: seq<Impact>, lines: seq<Line>) {
    && (forall i, j :: 0 <= i < j < |impacts| ==> impacts[i].invoiceId != impacts[j].invoiceId)
    && (forall i :: 0 <= i < |impacts| ==> impacts[i].amount == ImpactOn(lines, impacts[i].invoiceId) > 0)
    && (forall l :: l in lines && Billable(l) ==>
          exists i :: 0 <= i < |impacts| && impacts[i].invoiceId == l.invoiceId.value)
    && SumOf(impacts, ImpactAmount) == SumOf(lines, BilledAmount)
  }

  lemma {:induction false} ImpactOfOneMore(lines: seq<Line>, l: Line, inv: string)
    requires Billable(l)
    ensures ImpactOn(lines + [l], inv) == ImpactOn(lines, inv) + (if inv == l.invoiceId.value then l.amount else 0)
    ensures SumOf(lines + [l], BilledAmount) == SumOf(lines, BilledAmount) + l.amount
  {
    ImpactOnAppend(lines, [l], inv);
    SumOfAppend(lines, [l], BilledAmount);
  }

  /** A line for an invoice already listed adds to its entry. */
  lemma {:induction false} ImpactGrows(impacts: seq<Impact>, lines: seq<Line>, l: Line, k: nat)
    requires IsImpactOf(impacts, lines) && k < |impacts| && Billable(l) && impacts[k].invoiceId == l.invoiceId.value
    ensures IsImpactOf(impacts[k := Impact(impacts[k].invoiceId, impacts[k].amount + l.amount)], lines + [l])
  {
    var updated := impacts[k := Impact(impacts[k].invoiceId, impacts[k].amount + l.amount)];
    SumOfUpdate(impacts, k, updated[k], ImpactAmount);
    ImpactOfOneMore(lines, l, l.invoiceId.value);
    forall i | 0 <= i < |updated|
      ensures updated[i].invoiceId == impacts[i].invoiceId
      ensures updated[i].amount == ImpactOn(lines + [l], updated[i].invoiceId) > 0
    {
      ImpactOfOneMore(lines, l, impacts[i].invoiceId);
    }
    forall m | m in lines + [l] && Billable(m)
      ensures exists i :: 0 <= i < |updated| && updated[i].invoiceId == m.invoiceId.value
    {
      var i :| 0 <= i < |impacts| && impacts[i].invoiceId == m.invoiceId.value;
      assert updated[i].invoiceId == m.invoiceId.value;
    }
  }

  /** A line for an invoice not yet listed opens an entry. */
  lemma {:induction false} ImpactOpens(impacts: seq<Impact>, lines: seq<Line>, l: Line)
    requires IsImpactOf(impacts, lines) && Billable(l)
    requires forall i :: 0 <= i < |impacts| ==> impacts[i].invoiceId != l.invoiceId.value
    ensures IsImpactOf(impacts + [Impact(l.invoiceId.value, l.amount)], lines + [l])
  {
    var added := Impact(l.invoiceId.value, l.amount);
    var updated := impacts + [added];
    SumOfAppend(impacts, [added], ImpactAmount);
    StrangersHaveNoImpact(impacts, lines, added.invoiceId);
    forall i | 0 <= i < |updated| ensures updated[i].amount == ImpactOn(lines + [l], updated[i].invoiceId) > 0 {
      ImpactOfOneMore(lines, l, updated[i].invoiceId);
    }
    ImpactOfOneMore(lines, l, added.invoiceId);
    forall m | m in lines + [l] && Billable(m)
      ensures exists i :: 0 <= i < |updated| && updated[i].invoiceId == m.invoiceId.value
    {
      if m in lines {
        var i :| 0 <= i < |impacts| && impacts[i].invoiceId == m.invoiceId.value;
        assert updated[i].invoiceId == m.invoiceId.value;
      } else {
        assert updated[|impacts|].invoiceId == m.invoiceId.value;
      }
    }
  }

  lemma {:induction false} StrangersHaveNoImpact(impacts: seq<Impact>, lines: seq<Line>, id: string)
    requires IsImpactOf(impacts, lines)
    requires forall i :: 0 <= i < |impacts| ==> impacts[i].invoiceId != id
    ensures ImpactOn(lines, id) == 0
  {
    NoImpact(lines, id);
  }

  lemma {:induction false} NoImpact(lines: seq<Line>, id: string)
    requires forall l :: l in lines && Billable(l) ==> l.invoiceId.value != id
    ensures ImpactOn(lines, id) == 0
  {
    if lines == [] {
    } else {
      NoImpact(lines[1..], id);
    }
  }

  function Position(impacts: seq<Impact>, id: string): (k: nat)
    ensures k <= |impacts|
    ensures k < |impacts| ==> impacts[k].invoiceId == id
    ensures forall i :: 0 <= i < k ==> impacts[i].invoiceId != id
  {
    if impacts == [] || impacts[0].invoiceId == id then 0 else 1 + Position(impacts[1..], id)
  }

  /** The insertion-ordered `Map` of the source is the list `impacts`. */
  lemma NothingIsNoImpact()
    ensures IsImpactOf([], [])
  {
  }

  /** A line that bills no invoice changes no entry. */
  lemma {:induction false} ImpactKept(impacts: seq<Impact>, lines: seq<Line>, l: Line)
    requires IsImpactOf(impacts, lines) && !Billable(l)
    ensures IsImpactOf(impacts, lines + [l])
  {
    SumOfAppend(lines, [l], BilledAmount);
    forall inv ensures ImpactOn(lines + [l], inv) == ImpactOn(lines, inv) { ImpactOnAppend(lines, [l], inv); }
  }

  method AggregateInvoiceImpact(allocations: seq<Line>) returns (impacts: seq<Impact>)
    ensures IsImpactOf(impacts, allocations)
  {
    hide IsImpactOf;
    impacts := [];
    NothingIsNoImpact();
    for i := 0 to |allocations|
      invariant IsImpactOf(impacts, allocations[..i])
    {
      var l := allocations[i];
      assert allocations[..i + 1] == allocations[..i] + [l];
      if !Billable(l) {
        ImpactKept(impacts, allocations[..i], l);
        continue;
      }
      var k := Position(impacts, l.invoiceId.value);
      if k < |impacts| {
        ImpactGrows(impacts, allocations[..i], l, k);
        impacts := impacts[k := Impact(l.invoiceId.value, impacts[k].amount + l.amount)];
      } else {
        ImpactOpens(impacts, allocations[..i], l);
        impacts := impacts + [Impact(l.invoiceId.value, l.amount)];
      }
    }
    assert allocations[..|allocations|] == allocations;
  }
}
