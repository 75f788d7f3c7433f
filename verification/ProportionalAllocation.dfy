/** The pro-rata strategy and the whole `allocatePayment`
    (server/src/utils/payment-allocation.ts:163-282). */
module ProportionalAllocation {
  import opened Prelude
  import opened PaymentAllocation

  /** `round2((outstanding / totalOutstanding) * pool)` in pennies: the nearest integer, halves up. */
  function Share(outstanding: nat, pool: nat, total: nat): (share: nat)
    requires total > 0
    ensures 0 - total <= ShareError(outstanding, pool, total, share) < total
  {
    var n, d := 2 * (outstanding * pool) + total, 2 * total;
    assert n == d * (n / d) + n % d;
    Doubled(total, n / d);
    n / d
  }

  /** Twice the rounding error of a share, scaled by the total so that it stays an integer. */
  function ShareError(outstanding: int, pool: nat, total: nat, share: int): int {
    2 * (outstanding * pool) - 2 * (total * share)
  }

  lemma Unscale(t: int, a: int, b: int)
    requires t > 0 && t * a < t * b
    ensures a < b
  {
  }

  lemma Doubled(t: int, a: int)
    ensures t * (2 * a) == 2 * (t * a) && t * (2 * a + 1) == 2 * (t * a) + t && t * -1 == -t && t * 2 == 2 * t
  {
  }

  lemma {:induction false} NearestAtMost(o: int, total: int, share: int)
    requires total > 0 && 2 * (total * share) <= 2 * (total * o) + total
    ensures share <= o
  {
    Doubled(total, share);
    Doubled(total, o);
    Shrink(total, 2 * share, 2 * o + 1);
  }

  lemma Shrink(t: int, a: int, b: int)
    requires t > 0 && t * a <= t * b
    ensures a <= b
  {
  }

  lemma ProductBounds(o: int, pool: nat, total: nat)
    requires 0 <= o && 0 <= pool <= total
    ensures 0 <= o * pool <= total * o
    ensures o * pool == 0 <==> o == 0 || pool == 0
  {
  }

  function ErrorOf(outstanding: nat, pool: nat, total: nat): int
    requires total > 0
  {
    ShareError(outstanding, pool, total, Share(outstanding, pool, total))
  }

  /** Before the drift correction every share lies between nothing and the charge's own debt. */
  lemma {:induction false} ShareBounds(outstanding: nat, pool: nat, total: nat)
    requires pool <= total && total > 0
    ensures 0 - total <= ErrorOf(outstanding, pool, total) < total
    ensures 0 <= Share(outstanding, pool, total) <= outstanding
    ensures outstanding == 0 || pool == 0 ==> Share(outstanding, pool, total) == 0
    ensures outstanding > 0 && pool > 0 && Share(outstanding, pool, total) == 0 ==>
              ErrorOf(outstanding, pool, total) > 0
    ensures Share(outstanding, pool, total) == outstanding ==> ErrorOf(outstanding, pool, total) <= 0
  {
    var product, share := outstanding * pool, Share(outstanding, pool, total);
    ProductBounds(outstanding, pool, total);
    assert ErrorOf(outstanding, pool, total) == 2 * product - 2 * (total * share);
    NearestAtMost(outstanding, total, share);
    if product == 0 { NearestAtMost(0, total, share); }
  }

  function ShareLine(c: Charge, pool: nat, total: nat): Line
    requires total > 0
  {
    var outstanding := OutstandingFor(c);
    if outstanding == 0 || pool == 0 then Line(c.id, c.invoiceId, outstanding, 0, false)
    else
      var share := Share(outstanding, pool, total);
      Line(c.id, c.invoiceId, outstanding, share, share >= outstanding)
  }

  function Shares(charges: seq<Charge>, pool: nat, total: nat): (lines: seq<Line>)
    requires total > 0
    ensures |lines| == |charges|
    ensures forall i :: 0 <= i < |charges| ==> lines[i] == ShareLine(charges[i], pool, total)
  {
    if charges == [] then [] else [ShareLine(charges[0], pool, total)] + Shares(charges[1..], pool, total)
  }

  /** Index of the last line that still owes something, -1 when there is none. */
  function LastOwing(lines: seq<Line>): (k: int)
    ensures -1 <= k < |lines|
    ensures k >= 0 ==> lines[k].amount > 0 || lines[k].outstandingBefore > 0
    ensures forall i :: k < i < |lines| ==> lines[i].amount <= 0 && lines[i].outstandingBefore <= 0
  {
    if lines == [] then -1
    else
      var last := |lines| - 1;
      if lines[last].amount > 0 || lines[last].outstandingBefore > 0 then last else LastOwing(lines[..last])
  }

  function Absorb(l: Line, drift: int): Line {
    var adjusted := Max(0, Min(l.amount + drift, l.outstandingBefore));
    l.(amount := adjusted, fullyCovered := adjusted >= l.outstandingBefore && l.outstandingBefore > 0)
  }

  function Corrected(lines: seq<Line>, drift: int): seq<Line> {
    var k := LastOwing(lines);
    if drift == 0 || k < 0 then lines else lines[k := Absorb(lines[k], drift)]
  }

  function NothingOwed(c: Charge): Line { Line(c.id, c.invoiceId, 0, 0, false) }

  /** The payment, capped at everything that is owed. */
  function Pool(payment: nat, charges: seq<Charge>): (pool: nat)
    ensures pool <= payment && pool <= TotalOutstanding(charges)
    ensures pool == payment || pool == TotalOutstanding(charges)
  {
    TotalOutstandingNonNegative(charges);
    Min(payment, TotalOutstanding(charges))
  }

  /** What the shares miss of the pool, before it is pushed onto the last owing line. */
  function Drift(payment: nat, charges: seq<Charge>): int
    requires TotalOutstanding(charges) > 0
  {
    var pool := Pool(payment, charges);
    pool - TotalAllocated(Shares(charges, pool, TotalOutstanding(charges)))
  }

  function ProportionalLines(payment: nat, charges: seq<Charge>): seq<Line> {
    var total := TotalOutstanding(charges);
    if total <= 0 then Map(NothingOwed, charges)
    else Corrected(Shares(charges, Pool(payment, charges), total), Drift(payment, charges))
  }

  /** The drift loop of the source: walks back to the last owing line and edits it in place. */
  method AbsorbDrift(lines: array<Line>, drift: int)
    modifies lines
    ensures lines[..] == Corrected(old(lines[..]), drift)
  {
    if drift == 0 { return; }
    var i := lines.Length - 1;
    while i >= 0
      invariant -1 <= i < lines.Length
      invariant lines[..] == old(lines[..])
      invariant LastOwing(lines[..]) <= i
    {
      if lines[i].amount > 0 || lines[i].outstandingBefore > 0 {
        var capped := Min(lines[i].amount + drift, lines[i].outstandingBefore);
        var amount := if capped < 0 then 0 else capped;
        lines[i] := lines[i].(amount := amount,
                              fullyCovered := amount >= lines[i].outstandingBefore && lines[i].outstandingBefore > 0);
        return;
      }
      i := i - 1;
    }
  }

  method AllocateProportional(paymentAmount: nat, openCharges: seq<Charge>) returns (allocations: seq<Line>)
    ensures allocations == ProportionalLines(paymentAmount, openCharges)
  {
    hide ShareLine, TotalOutstanding, TotalAllocated, Corrected;
    var totalOutstanding := TotalOutstanding(openCharges);
    if totalOutstanding <= 0 {
      return Map(NothingOwed, openCharges);
    }
    var pool := Pool(paymentAmount, openCharges);
    var shares := Shares(openCharges, pool, totalOutstanding);
    var lines := new Line[|shares|](i requires 0 <= i < |shares| => shares[i]);
    assert lines[..] == shares;
    AbsorbDrift(lines, pool - TotalAllocated(shares));
    allocations := lines[..];
  }

  // ---------------------------------------------------------------- bounds

  /** The promise that survives every rounding: no line is negative or exceeds its charge, and
      `fullyCovered` says exactly that a debt was met. */
  lemma {:induction false} ProportionalWithinDebt(payment: nat, charges: seq<Charge>)
    ensures |ProportionalLines(payment, charges)| == |charges|
    ensures forall i :: 0 <= i < |charges| ==>
              var l, c := ProportionalLines(payment, charges)[i], charges[i];
              && 0 <= l.amount <= l.outstandingBefore == OutstandingFor(c)
              && l.chargeLineId == c.id && l.invoiceId == c.invoiceId
              && (l.fullyCovered <==> l.amount >= l.outstandingBefore > 0)
  {
    var total := TotalOutstanding(charges);
    if total <= 0 {
      forall i | 0 <= i < |charges| ensures OutstandingFor(charges[i]) == 0 { OwesNothing(charges, i); }
    } else {
      hide ShareLine, OutstandingFor;
      forall i | 0 <= i < |charges| { ShareWithinDebt(charges[i], Pool(payment, charges), total); }
    }
  }

  lemma {:induction false} ShareWithinDebt(c: Charge, pool: nat, total: nat)
    requires pool <= total && total > 0
    ensures var l := ShareLine(c, pool, total);
      && 0 <= l.amount <= l.outstandingBefore == OutstandingFor(c)
      && l.chargeLineId == c.id && l.invoiceId == c.invoiceId
      && (l.fullyCovered <==> l.amount >= l.outstandingBefore > 0)
  {
    ShareBounds(OutstandingFor(c), pool, total);
  }

  lemma {:induction false} OwesNothing(charges: seq<Charge>, i: nat)
    requires i < |charges|
    ensures OutstandingFor(charges[i]) <= TotalOutstanding(charges)
  {
    TotalOutstandingNonNegative(charges[1..]);
    if i == 0 {
    } else {
      OwesNothing(charges[1..], i - 1);
    }
  }

  // ---------------------------------------------------------------- the drift

  /** Number of charges that owe something. */
  function OwingCount(charges: seq<Charge>): nat {
    if charges == [] then 0 else (if IsOpen(charges[0]) then 1 else 0) + OwingCount(charges[1..])
  }

  function ErrorSum(charges: seq<Charge>, pool: nat, total: nat): int
    requires total > 0
  {
    if charges == [] then 0
    else ErrorOf(OutstandingFor(charges[0]), pool, total) + ErrorSum(charges[1..], pool, total)
  }

  lemma {:induction false} ErrorSumAppend(a: seq<Charge>, b: seq<Charge>, pool: nat, total: nat)
    requires total > 0
    ensures ErrorSum(a + b, pool, total) == ErrorSum(a, pool, total) + ErrorSum(b, pool, total)
    ensures OwingCount(a + b) == OwingCount(a) + OwingCount(b)
  {
    if a == [] {
      assert a + b == b;
    } else {
      assert (a + b)[1..] == a[1..] + b;
      ErrorSumAppend(a[1..], b, pool, total);
    }
  }

  lemma {:induction false} ErrorOfOne(c: Charge, pool: nat, total: nat)
    requires pool <= total && total > 0
    ensures 0 - total <= ErrorOf(OutstandingFor(c), pool, total) < total
    ensures !IsOpen(c) ==> ErrorOf(OutstandingFor(c), pool, total) == 0
  {
    ShareBounds(OutstandingFor(c), pool, total);
  }

  lemma {:induction false} ErrorSumBounds(charges: seq<Charge>, pool: nat, total: nat)
    requires pool <= total && total > 0
    ensures -(OwingCount(charges) * total) <= ErrorSum(charges, pool, total) <= OwingCount(charges) * total
    ensures OwingCount(charges) > 0 ==> ErrorSum(charges, pool, total) < OwingCount(charges) * total
  {
    hide ErrorOf, OutstandingFor;
    if charges == [] {
    } else {
      ErrorOfOne(charges[0], pool, total);
      ErrorSumBounds(charges[1..], pool, total);
      var n := OwingCount(charges[1..]);
      assert (n + 1) * total == n * total + total;
    }
  }

  /** The errors add up to the drift. */
  lemma {:induction false} ErrorSumIsDrift(charges: seq<Charge>, pool: nat, total: nat)
    requires pool <= total && total > 0
    ensures ErrorSum(charges, pool, total)
         == 2 * (pool * TotalOutstanding(charges)) - 2 * (total * TotalAllocated(Shares(charges, pool, total)))
  {
    if charges == [] {
    } else {
      var outstanding, rest := OutstandingFor(charges[0]), charges[1..];
      ShareBounds(outstanding, pool, total);
      ErrorSumIsDrift(rest, pool, total);
      var share, others := Share(outstanding, pool, total), TotalAllocated(Shares(rest, pool, total));
      assert TotalAllocated(Shares(charges, pool, total)) == share + others;
      Distribute(pool, outstanding, TotalOutstanding(rest));
      Distribute(total, share, others);
    }
  }

  lemma Distribute(a: int, b: int, c: int)
    ensures a * (b + c) == a * b + a * c
  {
  }

  lemma {:induction false} DriftTimesTotal(payment: nat, charges: seq<Charge>)
    requires TotalOutstanding(charges) > 0
    ensures var total := TotalOutstanding(charges);
      ErrorSum(charges, Pool(payment, charges), total) == 2 * (total * Drift(payment, charges))
  {
    var total, pool := TotalOutstanding(charges), Pool(payment, charges);
    ErrorSumIsDrift(charges, pool, total);
    Difference(total, pool, TotalAllocated(Shares(charges, pool, total)));
  }

  lemma Difference(total: int, pool: int, given: int)
    ensures 2 * (pool * total) - 2 * (total * given) == 2 * (total * (pool - given))
  {
  }

  lemma {:induction false} WithinHalves(total: int, drift: int, n: int)
    requires total > 0 && n > 0 && -(n * total) <= 2 * (total * drift) < n * total
    ensures -n <= 2 * drift < n
  {
    Doubled(total, drift);
    Unscale(total, 2 * drift, n);
    Unscale(total, -n - 1, 2 * drift) by { assert total * (-n - 1) == -(n * total) - total; }
  }

  /** The drift is at most half a penny for each charge that owes something. */
  lemma {:induction false} DriftBound(payment: nat, charges: seq<Charge>)
    requires TotalOutstanding(charges) > 0
    ensures 0 - OwingCount(charges) <= 2 * Drift(payment, charges) < OwingCount(charges)
  {
    DriftTimesTotal(payment, charges);
    ErrorSumBounds(charges, Pool(payment, charges), TotalOutstanding(charges));
    SomeoneOwes(charges);
    WithinHalves(TotalOutstanding(charges), Drift(payment, charges), OwingCount(charges));
  }

  lemma {:induction false} SomeoneOwes(charges: seq<Charge>)
    requires TotalOutstanding(charges) > 0
    ensures OwingCount(charges) > 0
  {
    if !IsOpen(charges[0]) { SomeoneOwes(charges[1..]); }
  }

  // ---------------------------------------------------------------- when the split is exact

  /** The line the drift lands on, as first shared out. */
  function DriftLine(payment: nat, charges: seq<Charge>): Line
    requires TotalOutstanding(charges) > 0
  {
    var lines := Shares(charges, Pool(payment, charges), TotalOutstanding(charges));
    SomeLineOwes(payment, charges);
    lines[LastOwing(lines)]
  }

  lemma {:induction false} SomeLineOwes(payment: nat, charges: seq<Charge>)
    requires TotalOutstanding(charges) > 0
    ensures LastOwing(Shares(charges, Pool(payment, charges), TotalOutstanding(charges))) >= 0
  {
    var k := OneWhoOwes(charges);
    var lines := Shares(charges, Pool(payment, charges), TotalOutstanding(charges));
    assert lines[k].outstandingBefore > 0;
  }

  lemma {:induction false} OneWhoOwes(charges: seq<Charge>) returns (k: nat)
    requires TotalOutstanding(charges) > 0
    ensures k < |charges| && OutstandingFor(charges[k]) > 0
  {
    if IsOpen(charges[0]) {
      k := 0;
    } else {
      k := OneWhoOwes(charges[1..]);
      k := k + 1;
    }
  }

  /** The drift fits: adding it to its line neither goes below zero nor above the debt. */
  predicate DriftFits(payment: nat, charges: seq<Charge>)
    requires TotalOutstanding(charges) > 0
  {
    var l := DriftLine(payment, charges);
    0 <= l.amount + Drift(payment, charges) <= l.outstandingBefore
  }

  /** The total handed out misses the pool by exactly what the clamp cuts off. */
  lemma {:induction false} ProportionalTotal(payment: nat, charges: seq<Charge>)
    requires TotalOutstanding(charges) > 0
    ensures var l, drift := DriftLine(payment, charges), Drift(payment, charges);
      && TotalAllocated(ProportionalLines(payment, charges))
         == Pool(payment, charges) + Absorb(l, drift).amount - (l.amount + drift)
      && 0 <= l.amount <= l.outstandingBefore
  {
    var pool, total := Pool(payment, charges), TotalOutstanding(charges);
    var lines := Shares(charges, pool, total);
    SomeLineOwes(payment, charges);
    var k := LastOwing(lines);
    ShareBounds(OutstandingFor(charges[k]), pool, total);
    SumOfUpdate(lines, k, Absorb(lines[k], Drift(payment, charges)), LineAmount);
  }

  /** The documented exactness: the lines add up to the pool if and only if the drift fits. */
  lemma {:induction false} ProportionalExactIffDriftFits(payment: nat, charges: seq<Charge>)
    requires TotalOutstanding(charges) > 0
    ensures TotalAllocated(ProportionalLines(payment, charges)) == Pool(payment, charges)
       <==> DriftFits(payment, charges)
  {
    ProportionalTotal(payment, charges);
  }

  /** The split without reference to how it is computed: every line but the last owing one gets its
      pro-rata amount to the nearest penny, halves up, and the last owing line gets what is left of
      the pool, cut to the range from nothing to its debt. */
  lemma {:induction false} ProportionalCharacterised(payment: nat, charges: seq<Charge>, lines: seq<Line>, last: int,
                                                     i: nat)
    requires TotalOutstanding(charges) > 0 && lines == ProportionalLines(payment, charges)
    requires last == LastOwing(Shares(charges, Pool(payment, charges), TotalOutstanding(charges))) && i < |charges|
    ensures 0 <= last < |lines| == |charges|
    ensures var total, pool, owed := TotalOutstanding(charges), Pool(payment, charges), OutstandingFor(charges[i]);
      if i == last
      then lines[i].amount == Max(0, Min(owed, pool - (TotalAllocated(lines) - lines[i].amount)))
      else 0 - total <= ShareError(owed, pool, total, lines[i].amount) < total
  {
    hide OutstandingFor, LastOwing;
    var total, pool := TotalOutstanding(charges), Pool(payment, charges);
    var shares := Shares(charges, pool, total);
    SomeLineOwes(payment, charges);
    ShareBounds(OutstandingFor(charges[i]), pool, total);
    SumOfUpdate(shares, last, Absorb(shares[last], Drift(payment, charges)), LineAmount);
  }

  // ---------------------------------------------------------------- which debts the split meets

  /** A share is the whole debt when what the pool leaves unpaid of it rounds to nothing. */
  lemma {:induction false} ShareIsWholeIff(outstanding: nat, pool: nat, total: nat)
    requires pool <= total && total > 0
    ensures Share(outstanding, pool, total) == outstanding <==> 2 * (outstanding * (total - pool)) <= total
  {
    var share := Share(outstanding, pool, total);
    ShareBounds(outstanding, pool, total);
    WholeShare(outstanding, share, pool, total);
  }

  lemma {:induction false} WholeShare(o: int, share: int, pool: int, total: int)
    requires total > 0 && share <= o
    requires 0 - total <= 2 * (o * pool) - 2 * (total * share) < total
    ensures share == o <==> 2 * (o * (total - pool)) <= total
  {
    assert o * (total - pool) == total * o - o * pool;
    if share < o {
      assert total * share <= total * o - total by { Shrunk(total, share, o); }
    }
  }

  lemma {:induction false} Shrunk(t: int, a: int, b: int)
    requires t > 0 && a < b
    ensures t * a <= t * b - t
  {
    NonNegativeProduct(t, b - 1 - a);
    Distribute(t, a, b - 1 - a);
    Distribute(t, b - 1, 1);
  }

  lemma NonNegativeProduct(t: int, d: int)
    requires t > 0 && d >= 0
    ensures t * d >= 0
  {
  }

  /** The last charge that owes anything. */
  ghost predicate LastOwes(charges: seq<Charge>, k: nat) {
    k < |charges| && IsOpen(charges[k]) && forall j :: k < j < |charges| ==> !IsOpen(charges[j])
  }

  lemma SharesAppend(a: seq<Charge>, b: seq<Charge>, pool: nat, total: nat)
    requires total > 0
    ensures Shares(a + b, pool, total) == Shares(a, pool, total) + Shares(b, pool, total)
  {
  }

  lemma {:induction false} NothingSharedOut(charges: seq<Charge>, pool: nat, total: nat)
    requires total > 0 && forall j :: 0 <= j < |charges| ==> !IsOpen(charges[j])
    ensures TotalAllocated(Shares(charges, pool, total)) == 0
  {
    if charges == [] {
    } else {
      NothingSharedOut(charges[1..], pool, total);
    }
  }

  /** The shares before the last owing charge and its own are all there is. */
  lemma {:induction false} SharesUpTo(charges: seq<Charge>, pool: nat, total: nat, k: nat)
    requires total > 0 && LastOwes(charges, k)
    ensures TotalAllocated(Shares(charges, pool, total))
         == TotalAllocated(Shares(charges[..k], pool, total)) + Shares(charges, pool, total)[k].amount
  {
    hide Shares, TotalAllocated, OutstandingFor;
    var before, own, after := charges[..k], [charges[k]], charges[k + 1..];
    var lines := Shares(charges, pool, total);
    assert charges == before + own + after;
    SharesAppend(before + own, after, pool, total);
    SharesAppend(before, own, pool, total);
    TotalsAppend(Shares(before + own, pool, total), Shares(after, pool, total));
    TotalsAppend(Shares(before, pool, total), Shares(own, pool, total));
    assert Shares(own, pool, total) == [lines[k]];
    TotalOfOne(lines[k]);
    NothingSharedOut(after, pool, total);
  }

  lemma {:induction false} TotalsAppend(a: seq<Line>, b: seq<Line>)
    ensures TotalAllocated(a + b) == TotalAllocated(a) + TotalAllocated(b)
  {
    SumOfAppend(a, b, LineAmount);
  }

  lemma {:induction false} TotalOfOne(l: Line)
    ensures TotalAllocated([l]) == l.amount
  {
    assert [l][1..] == [];
    assert SumOf([l], LineAmount) == LineAmount(l) + SumOf([], LineAmount);
  }

  lemma {:induction false} LastShareOwing(charges: seq<Charge>, pool: nat, total: nat, k: nat)
    requires total > 0 && LastOwes(charges, k)
    ensures LastOwing(Shares(charges, pool, total)) == k
  {
    var lines := Shares(charges, pool, total);
    assert lines[k].outstandingBefore > 0;
    forall j | k < j < |lines| ensures lines[j].amount <= 0 && lines[j].outstandingBefore <= 0 {
      assert !IsOpen(charges[j]);
    }
  }

  /** The line at `i` meets its debt: for the last owing charge when the other shares leave at least
      that debt of the pool, for any other when the unpaid part of its debt rounds to nothing. */
  ghost predicate MeetsDebt(payment: nat, charges: seq<Charge>, k: nat, i: nat)
    requires TotalOutstanding(charges) > 0 && k < |charges| && i < |charges|
  {
    var total, pool, debt := TotalOutstanding(charges), Pool(payment, charges), OutstandingFor(charges[i]);
    if i == k then pool - TotalAllocated(Shares(charges[..k], pool, total)) >= debt
    else debt > 0 && 2 * (debt * (total - pool)) <= total
  }

  lemma {:induction false} ShareCoveredIff(c: Charge, pool: nat, total: nat)
    requires pool <= total && total > 0
    ensures ShareLine(c, pool, total).fullyCovered
       <==> OutstandingFor(c) > 0 && 2 * (OutstandingFor(c) * (total - pool)) <= total
  {
    ShareIsWholeIff(OutstandingFor(c), pool, total);
    ShareBounds(OutstandingFor(c), pool, total);
  }

  lemma {:induction false} CoveredIffMet(payment: nat, charges: seq<Charge>, k: nat, i: nat)
    requires TotalOutstanding(charges) > 0 && LastOwes(charges, k) && i < |charges|
    ensures |ProportionalLines(payment, charges)| == |charges|
    ensures ProportionalLines(payment, charges)[i].fullyCovered <==> MeetsDebt(payment, charges, k, i)
  {
    hide OutstandingFor, ShareLine, Share, TotalOutstanding, TotalAllocated, LastOwing;
    var total, pool := TotalOutstanding(charges), Pool(payment, charges);
    var shares, lines := Shares(charges, pool, total), ProportionalLines(payment, charges);
    ProportionalWithinDebt(payment, charges);
    SharesUpTo(charges, pool, total, k);
    LastShareOwing(charges, pool, total, k);
    if i == k {
      ProportionalCharacterised(payment, charges, lines, k, k);
      OtherShares(shares, lines, k);
    } else {
      assert lines[i] == shares[i];
      ShareCoveredIff(charges[i], pool, total);
    }
  }

  lemma {:induction false} OtherShares(shares: seq<Line>, lines: seq<Line>, k: nat)
    requires k < |shares| == |lines| && lines == shares[k := lines[k]]
    ensures TotalAllocated(lines) - lines[k].amount == TotalAllocated(shares) - shares[k].amount
  {
    SumOfUpdate(shares, k, lines[k], LineAmount);
  }

  lemma {:induction false} NobodyOwes(charges: seq<Charge>, pool: nat, total: nat)
    requires pool <= total && total > 0
    requires forall c :: c in charges ==> OutstandingFor(c) == 0
    ensures ErrorSum(charges, pool, total) == 0 && OwingCount(charges) == 0
  {
    if charges == [] {
    } else {
      ShareBounds(0, pool, total);
      NobodyOwes(charges[1..], pool, total);
    }
  }

  lemma {:induction false} FewOwingArithmetic(total: int, drift: int, n: nat, others: int, own: int, share: int,
                                              debt: int)
    requires total > 0 && n <= 2 && 0 <= share <= debt
    requires -(n * total) <= others <= n * total && (n > 0 ==> others < n * total)
    requires -total <= own < total
    requires share == 0 ==> own > 0
    requires share == debt ==> own <= 0
    requires others + own == 2 * (total * drift)
    ensures share == 0 ==> drift >= 0
    ensures -1 <= drift <= 1
    ensures share == debt ==> drift <= 0
  {
    assert n * total <= 2 * total;
    Unscale(total, 2 * drift, 3) by { assert total * (2 * drift) == 2 * (total * drift); }
    Unscale(total, -4, 2 * drift) by { assert total * (2 * drift) == 2 * (total * drift); }
    if share == debt { Unscale(total, 2 * drift, 2) by { assert total * (2 * drift) == 2 * (total * drift); } }
    if share == 0 { Unscale(total, -2, 2 * drift) by { assert total * (2 * drift) == 2 * (total * drift); } }
  }

  /** With at most three charges that owe anything the drift always fits, so the split is exact. */
  lemma {:induction false} ProportionalExactForThree(payment: nat, charges: seq<Charge>)
    requires TotalOutstanding(charges) > 0 && OwingCount(charges) <= 3
    ensures DriftFits(payment, charges)
    ensures TotalAllocated(ProportionalLines(payment, charges)) == Pool(payment, charges)
  {
    var pool, total, drift := Pool(payment, charges), TotalOutstanding(charges), Drift(payment, charges);
    var lines := Shares(charges, pool, total);
    SomeLineOwes(payment, charges);
    var k := LastOwing(lines);
    forall i | k < i < |charges| ensures OutstandingFor(charges[i]) == 0 {
      assert lines[i].outstandingBefore <= 0;
    }
    var debt, before := OutstandingFor(charges[k]), charges[..k];
    var others, own, n := ErrorSum(before, pool, total), ErrorOf(debt, pool, total), OwingCount(before);
    SplitAtLastOwing(charges, pool, total, k);
    ErrorSumBounds(before, pool, total);
    DriftTimesTotal(payment, charges);
    ShareBounds(debt, pool, total);
    if pool == 0 {
      NothingShared(charges, total);
    } else {
      FewOwingArithmetic(total, drift, n, others, own, Share(debt, pool, total), debt);
    }
    ProportionalExactIffDriftFits(payment, charges);
  }

  lemma {:induction false} SplitAtLastOwing(charges: seq<Charge>, pool: nat, total: nat, k: nat)
    requires pool <= total && total > 0 && k < |charges| && OutstandingFor(charges[k]) > 0
    requires forall i :: k < i < |charges| ==> OutstandingFor(charges[i]) == 0
    ensures ErrorSum(charges, pool, total)
         == ErrorSum(charges[..k], pool, total) + ErrorOf(OutstandingFor(charges[k]), pool, total)
    ensures OwingCount(charges) == OwingCount(charges[..k]) + 1
  {
    var before, after := charges[..k], charges[k + 1..];
    assert charges == before + [charges[k]] + after;
    ErrorSumAppend(before + [charges[k]], after, pool, total);
    ErrorSumAppend(before, [charges[k]], pool, total);
    forall c | c in after ensures OutstandingFor(c) == 0 {
      var i :| 0 <= i < |after| && after[i] == c;
      assert charges[k + 1 + i] == c;
    }
    NobodyOwes(after, pool, total);
    assert [charges[k]][1..] == [];
  }

  lemma {:induction false} NothingShared(charges: seq<Charge>, total: nat)
    requires total > 0
    ensures TotalAllocated(Shares(charges, 0, total)) == 0
  {
    if charges == [] {
    } else {
      NothingShared(charges[1..], total);
    }
  }

  // ---------------------------------------------------------------- the whole allocation

  datatype Strategy = Fifo | Proportional

  datatype Outcome = Outcome(
    strategy: Strategy,
    paymentAmount: int,
    totalAllocated: int,
    leftover: int,
    fullyAllocated: bool,
    allocations: seq<Line>,
    invoiceImpact: seq<Impact>)

  function Allocation(strategy: Strategy, payment: int, charges: seq<Charge>): seq<Line> {
    match strategy
    case Fifo => FifoWalk(FifoOrder(charges), NonNegative(payment))
    case Proportional => ProportionalLines(NonNegative(payment), charges)
  }

  method AllocatePayment(payment: int, openCharges: seq<Charge>, strategy: Option<Strategy>) returns (o: Outcome)
    ensures o.strategy == if strategy.Some? then strategy.value else Fifo
    ensures o.paymentAmount == Max(0, payment)
    ensures o.allocations == Allocation(o.strategy, payment, openCharges)
    ensures o.totalAllocated == TotalAllocated(o.allocations)
    ensures o.leftover == Max(0, o.paymentAmount - o.totalAllocated)
    ensures o.fullyAllocated <==> o.totalAllocated >= o.paymentAmount
    ensures IsImpactOf(o.invoiceImpact, o.allocations)
  {
    var chosen := if strategy.Some? then strategy.value else Fifo;
    var paymentAmount := NonNegative(payment);
    var allocations;
    if chosen == Proportional {
      allocations := AllocateProportional(paymentAmount, openCharges);
    } else {
      allocations := AllocateFifo(paymentAmount, openCharges);
    }
    var totalAllocated := TotalAllocated(allocations);
    var leftover := Max(0, paymentAmount - totalAllocated);
    var impact := AggregateInvoiceImpact(allocations);
    o := Outcome(chosen, paymentAmount, totalAllocated, leftover, leftover == 0, allocations, impact);
  }

  /** Every allocation under either strategy stays within each charge's debt. */
  lemma {:induction false} AllocationWithinDebt(strategy: Strategy, payment: int, charges: seq<Charge>,
                                                lines: seq<Line>)
    requires lines == Allocation(strategy, payment, charges)
    ensures forall i :: 0 <= i < |lines| ==>
              && 0 <= lines[i].amount <= lines[i].outstandingBefore
              && (lines[i].fullyCovered <==> lines[i].amount >= lines[i].outstandingBefore > 0)
  {
    match strategy
    case Fifo =>
      FifoShape(FifoOrder(charges), NonNegative(payment), lines);
      FifoWalkIsWaterfall(FifoOrder(charges), NonNegative(payment));
    case Proportional => ProportionalWithinDebt(NonNegative(payment), charges);
  }

  lemma {:induction false} ProportionalOfNothing(payment: nat, charges: seq<Charge>)
    requires TotalOutstanding(charges) <= 0
    ensures TotalAllocated(ProportionalLines(payment, charges)) == 0
  {
    AllZero(charges);
  }

  lemma {:induction false} AllZero(charges: seq<Charge>)
    ensures TotalAllocated(Map(NothingOwed, charges)) == 0
  {
    if charges == [] {
    } else {
      MapTail(NothingOwed, charges);
      AllZero(charges[1..]);
    }
  }

  /** `totalAllocated + leftover === paymentAmount` always holds for FIFO; pro rata it holds if
      and only if the drift does not push its line below zero. */
  lemma {:induction false} PaymentConservedIff(strategy: Strategy, payment: int, charges: seq<Charge>)
    ensures var p, given := NonNegative(payment), TotalAllocated(Allocation(strategy, payment, charges));
      given + Max(0, p - given) == p
      <==> (strategy == Fifo || TotalOutstanding(charges) <= 0
            || DriftLine(p, charges).amount + Drift(p, charges) >= 0)
  {
    var p := NonNegative(payment);
    match strategy
    case Fifo =>
      var sorted := FifoOrder(charges);
      FifoConserves(sorted, p);
      TotalOutstandingNonNegative(sorted);
    case Proportional =>
      if TotalOutstanding(charges) <= 0 {
        ProportionalOfNothing(p, charges);
      } else {
        ProportionalTotal(p, charges);
        if p > TotalOutstanding(charges) { WholeDebtHasNoDrift(p, charges); }
      }
  }

  /** When the pool is the whole debt every share is exact. */
  lemma {:induction false} WholeDebtHasNoDrift(payment: nat, charges: seq<Charge>)
    requires TotalOutstanding(charges) > 0 && payment >= TotalOutstanding(charges)
    ensures Drift(payment, charges) == 0
  {
    ExactShares(charges, TotalOutstanding(charges));
  }

  lemma {:induction false} ExactShares(charges: seq<Charge>, total: nat)
    requires total > 0
    ensures TotalAllocated(Shares(charges, total, total)) == TotalOutstanding(charges)
  {
    if charges == [] {
    } else {
      var outstanding := OutstandingFor(charges[0]);
      ShareOfWhole(outstanding, total);
      ExactShares(charges[1..], total);
    }
  }

  lemma {:induction false} ShareOfWhole(outstanding: nat, total: nat)
    requires total > 0
    ensures Share(outstanding, total, total) == outstanding
  {
    var share := Share(outstanding, total, total);
    NearestAtMost(outstanding, total, share);
    NearestAtMost(share, total, outstanding);
  }

  // ---------------------------------------------------------------- witnesses

  function Owes(id: string, pennies: int): Charge { Charge(id, None, pennies, 0, None, None) }

  /** Four one-penny charges and a two-penny payment: three pennies are handed out. */
  lemma {:induction false} OverAllocationWitness()
    ensures var charges := [Owes("a", 1), Owes("b", 1), Owes("c", 1), Owes("d", 1)];
      && TotalOutstanding(charges) == 4
      && TotalAllocated(ProportionalLines(2, charges)) == 3
  {
    var a, b, c, d := Owes("a", 1), Owes("b", 1), Owes("c", 1), Owes("d", 1);
    Witness(a, b, c, d, 2, 4);
    assert Share(1, 2, 4) == 1;
  }

  /** Debts of 2p, 2p, 2p and 1p and a five-penny payment: four pennies are handed out and one is
      left over although three are still owed. */
  lemma {:induction false} UnderAllocationWitness()
    ensures var charges := [Owes("a", 2), Owes("b", 2), Owes("c", 2), Owes("d", 1)];
      && TotalOutstanding(charges) == 7
      && TotalAllocated(ProportionalLines(5, charges)) == 4
  {
    var a, b, c, d := Owes("a", 2), Owes("b", 2), Owes("c", 2), Owes("d", 1);
    Witness(a, b, c, d, 5, 7);
    assert Share(2, 5, 7) == 1 && Share(1, 5, 7) == 1;
  }

  lemma {:induction false} Witness(a: Charge, b: Charge, c: Charge, d: Charge, pool: nat, total: nat)
    requires IsOpen(a) && IsOpen(b) && IsOpen(c) && IsOpen(d) && 0 < pool <= total
    requires total == OutstandingFor(a) + OutstandingFor(b) + OutstandingFor(c) + OutstandingFor(d)
    ensures TotalOutstanding([a, b, c, d]) == total
    ensures var given := Share(OutstandingFor(a), pool, total) + Share(OutstandingFor(b), pool, total)
                         + Share(OutstandingFor(c), pool, total);
      var last := Share(OutstandingFor(d), pool, total);
      TotalAllocated(ProportionalLines(pool, [a, b, c, d]))
      == given + Max(0, Min(pool - given, OutstandingFor(d)))
  {
    var charges := [a, b, c, d];
    SumOfFour(a, b, c, d, OutstandingFor);
    var lines := Shares(charges, pool, total);
    assert Pool(pool, charges) == pool;
    assert lines == [ShareLine(a, pool, total), ShareLine(b, pool, total),
                     ShareLine(c, pool, total), ShareLine(d, pool, total)];
    SumOfFour(lines[0], lines[1], lines[2], lines[3], LineAmount);
    ProportionalTotal(pool, charges);
    assert LastOwing(lines) == 3;
    ShareBounds(OutstandingFor(d), pool, total);
  }
}
