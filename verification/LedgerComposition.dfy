/** What an allocation leaves alone, how it promotes invoices, and that FIFO payments compose through
    the stored tables, not only on paper. */
module LedgerComposition {
  import opened Prelude
  import opened Sorting
  import opened PaymentAllocation
  import opened ProportionalAllocation
  import opened LedgerTables
  import opened LedgerInvariant

  // ---------------------------------------------------------------- what one allocation changes

  lemma {:induction false} SettlingTouchesOnlyOpenRows(rows: seq<ChargeRow>, lines: seq<Line>, owner: string,
                                                       invoices: map<string, InvoiceRow>, i: nat)
    requires DistinctRows(rows) && LinesOfRows(lines, rows, owner, invoices) && i < |rows|
    ensures |SettleRows(rows, lines)| == |rows|
    ensures !Allocatable(rows[i], owner, invoices) ==> SettleRows(rows, lines)[i] == rows[i]
  {
    LinesNonNegative(lines, rows, owner, invoices);
    SettleRowsRowwise(rows, lines);
    if !Allocatable(rows[i], owner, invoices) {
      forall l | l in lines ensures l.chargeLineId != rows[i].id {
        assert HasRow(l, rows, owner, invoices);
        var k :| 0 <= k < |rows| && LineOf(l, rows[k], owner, invoices);
      }
      AllocatedToStranger(lines, rows[i].id);
    }
  }

  /** A row the payment cannot reach (another account's, closed, or on a cancelled invoice) is unchanged. */
  lemma {:induction false} AllocationTouchesOnlyOpenRows(w: World, paymentId: string, strategy: Strategy, i: nat)
    requires Inv(w) && Accepts(w.tables, AllocateForPayment(paymentId, strategy)) && i < |w.tables.charges|
    ensures |Step(w, AllocateForPayment(paymentId, strategy)).tables.charges| == |w.tables.charges|
    ensures !Allocatable(w.tables.charges[i], w.tables.payments[paymentId].accountId, w.tables.invoices)
            ==> Step(w, AllocateForPayment(paymentId, strategy)).tables.charges[i] == w.tables.charges[i]
  {
    var t, lines := w.tables, AllocationFor(w.tables, paymentId, strategy);
    AllocationOfRows(t, paymentId, strategy, lines);
    SettlingTouchesOnlyOpenRows(t.charges, lines, t.payments[paymentId].accountId, t.invoices, i);
  }

  lemma CreditTellsPayment(before: InvoiceRow, impact: int)
    requires impact >= 0
    ensures var after := CreditInvoice(before, impact);
      && after.paidAmount == before.paidAmount + impact && after.totalAmount == before.totalAmount
      && (impact == 0 ==> after == before)
      && (after.status == CANCELLED ==> before.status == CANCELLED)
      && (impact > 0 ==>
            && (after.paidAmount >= after.totalAmount ==> after.status == FULLY_PAID)
            && (0 < after.paidAmount < after.totalAmount ==> after.status == PARTIALLY_PAID))
  {
  }

  /** Only live invoices are credited, and a credited invoice's status says whether it is paid off. */
  lemma {:induction false} PromotionTellsPayment(w: World, paymentId: string, strategy: Strategy, inv: string)
    requires Inv(w) && Accepts(w.tables, AllocateForPayment(paymentId, strategy)) && inv in w.tables.invoices
    ensures var before, after := w.tables.invoices[inv],
                                 Step(w, AllocateForPayment(paymentId, strategy)).tables.invoices[inv];
      && after.paidAmount >= before.paidAmount
      && (before.status == CANCELLED ==> after == before)
      && (after.status == CANCELLED ==> before.status == CANCELLED)
      && (after.paidAmount > before.paidAmount ==>
            && (after.paidAmount >= after.totalAmount ==> after.status == FULLY_PAID)
            && (0 < after.paidAmount < after.totalAmount ==> after.status == PARTIALLY_PAID))
  {
    var t, lines := w.tables, AllocationFor(w.tables, paymentId, strategy);
    AllocationOfRows(t, paymentId, strategy, lines);
    ImpactNonNegative(lines, inv);
    CreditTellsPayment(t.invoices[inv], ImpactOn(lines, inv));
    assert Step(w, AllocateForPayment(paymentId, strategy)).tables.invoices
        == CreditInvoices(t.invoices, lines);
    if t.invoices[inv].status == CANCELLED {
      CancelledGetsNothing(lines, t.charges, t.payments[paymentId].accountId, t.invoices, inv);
    }
  }

  lemma {:induction false} CancelledGetsNothing(lines: seq<Line>, rows: seq<ChargeRow>, owner: string,
                             invoices: map<string, InvoiceRow>, inv: string)
    requires LinesOfRows(lines, rows, owner, invoices) && inv in invoices && invoices[inv].status == CANCELLED
    ensures ImpactOn(lines, inv) == 0
  {
    forall l | l in lines && Billable(l) ensures l.invoiceId.value != inv {
      assert HasRow(l, rows, owner, invoices);
    }
    NoImpact(lines, inv);
  }

  // ---------------------------------------------------------------- composing through the tables

  /** The charges read for an account meet what the composition of payments asks of them. */
  lemma {:induction false} OpenChargesCompose(w: World, a: string)
    requires Inv(w)
    ensures DistinctIds(FindOpenForAccount(w.tables, a)) && PriorAllocationsValid(FindOpenForAccount(w.tables, a))
  {
    OpenChargesAreOpenRows(w.tables, a);
    forall c | c in FindOpenForAccount(w.tables, a) ensures c.alreadyAllocated >= 0 {
      var r :| r in w.tables.charges && Allocatable(r, a, w.tables.invoices) && c == AsCharge(r);
      assert RowOk(r, w.journal);
    }
  }

  lemma {:induction false} WalkOfOwing(sorted: seq<Charge>, r: int)
    ensures FifoWalk(Owing(sorted), r) == FifoWalk(sorted, r)
  {
    if sorted == [] {
    } else {
      var o := OutstandingFor(sorted[0]);
      WalkOfOwing(sorted[1..], r);
      WalkOfOwing(sorted[1..], r - Min(NonNegative(r), o));
      if IsOpen(sorted[0]) {
        assert Owing(sorted)[1..] == Owing(sorted[1..]);
      } else {
        assert Owing(sorted) == Owing(sorted[1..]);
      }
    }
  }

  ghost predicate SameOwing(xs: seq<Charge>, ys: seq<Charge>) {
    forall c :: IsOpen(c) ==> (c in xs <==> c in ys)
  }

  lemma {:induction false} OwingCountsOne(xs: seq<Charge>, c: Charge)
    requires DistinctIds(xs)
    ensures multiset(Owing(FifoOrder(xs)))[c] == if IsOpen(c) && c in xs then 1 else 0
  {
    FifoOrderIsSorted(xs);
    OwingKeepsExactlyTheOwing(FifoOrder(xs), c);
    DistinctIdsCount(xs, c);
    assert c in xs <==> c in multiset(xs);
  }

  lemma {:induction false} SameOwingMultiset(xs: seq<Charge>, ys: seq<Charge>)
    requires DistinctIds(xs) && DistinctIds(ys) && SameOwing(xs, ys)
    ensures multiset(Owing(FifoOrder(xs))) == multiset(Owing(FifoOrder(ys)))
  {
    forall c ensures multiset(Owing(FifoOrder(xs)))[c] == multiset(Owing(FifoOrder(ys)))[c] {
      OwingCountsOne(xs, c);
      OwingCountsOne(ys, c);
    }
  }

  lemma {:induction false} OwingIsSorted(xs: seq<Charge>)
    ensures SortedBy(FifoLeq, Owing(FifoOrder(xs)))
  {
    FifoOrderIsSorted(xs);
    OwingSorted(FifoOrder(xs));
  }

  /** FIFO sees only the charges that owe something, so lists that agree on those are allocated alike. */
  lemma {:induction false} SameOwingSameWalk(xs: seq<Charge>, ys: seq<Charge>, payment: int)
    requires DistinctIds(xs) && DistinctIds(ys) && SameOwing(xs, ys)
    ensures FifoWalk(FifoOrder(xs), payment) == FifoWalk(FifoOrder(ys), payment)
  {
    var s, t := Owing(FifoOrder(xs)), Owing(FifoOrder(ys));
    SameOwingMultiset(xs, ys);
    OwingIsSorted(xs);
    OwingIsSorted(ys);
    forall a, b | a in s && b in s && FifoLeq(a, b) && FifoLeq(b, a) ensures a == b {
      OwingMember(xs, a);
      OwingMember(xs, b);
      FifoTies(a, b);
    }
    SortedUnique(FifoLeq, s, t);
    WalkOfOwing(FifoOrder(xs), payment);
    WalkOfOwing(FifoOrder(ys), payment);
  }

  lemma {:induction false} OwingMember(xs: seq<Charge>, c: Charge)
    requires DistinctIds(xs) && c in Owing(FifoOrder(xs))
    ensures c in xs
  {
    assert c in multiset(Owing(FifoOrder(xs)));
    OwingCountsOne(xs, c);
  }

  /** One open row before a FIFO allocation and after it: closed exactly when nothing is left owing,
      and otherwise read back as the carried-forward charge. */
  lemma {:induction false} RowAfterAllocation(w: World, owner: string, lines: seq<Line>, r: ChargeRow)
    requires Inv(w) && r in w.tables.charges && OpenStatus(r.status)
    requires LinesOfRows(lines, w.tables.charges, owner, w.tables.invoices)
    ensures var carried, r' := Carry(lines)(AsCharge(r)), SettledRow(r, lines);
      && (IsOpen(carried) ==> OpenStatus(r'.status))
      && (OpenStatus(r'.status) ==> AsCharge(r') == carried)
  {
    assert RowOk(r, w.journal);
    if r.id in PlannedIds(lines) {
      PlannedRowIsMet(w.tables.charges, lines, owner, w.tables.invoices, r);
    }
  }

  /** After an allocation the account's open charges owe what the carried-forward charges owe. */
  lemma {:induction false} ReadBackIsCarriedForward(w: World, paymentId: string, lines: seq<Line>)
    requires Inv(w) && Accepts(w.tables, AllocateForPayment(paymentId, Fifo))
    requires lines == AllocationFor(w.tables, paymentId, Fifo)
    ensures var a := w.tables.payments[paymentId].accountId;
      SameOwing(FindOpenForAccount(Step(w, AllocateForPayment(paymentId, Fifo)).tables, a),
                CarryForward(FindOpenForAccount(w.tables, a), lines))
  {
    var t, t' := w.tables, Step(w, AllocateForPayment(paymentId, Fifo)).tables;
    var a := t.payments[paymentId].accountId;
    var open, open' := FindOpenForAccount(t, a), FindOpenForAccount(t', a);
    AllocateKeepsInvariant(w, paymentId, Fifo);
    AllocationOfRows(t, paymentId, Fifo, lines);
    LinesNonNegative(lines, t.charges, a, t.invoices);
    SettleRowsRowwise(t.charges, lines);
    OpenChargesAreOpenRows(t, a);
    OpenChargesAreOpenRows(t', a);
    forall i | 0 <= i < |t.charges|
      ensures t'.charges[i] == SettledRow(t.charges[i], lines)
      ensures Allocatable(t'.charges[i], a, t'.invoices)
         <==> Allocatable(t.charges[i], a, t.invoices) && OpenStatus(t'.charges[i].status)
    {
      SameReach(w, paymentId, i);
    }
    forall c | IsOpen(c) ensures c in open' <==> c in CarryForward(open, lines) {
      if c in open' {
        ReadBackWasCarried(w, t', a, lines, c);
      }
      if c in CarryForward(open, lines) {
        CarriedIsReadBack(w, t', a, lines, c);
      }
    }
  }

  /** An allocation changes neither whose a row is nor whether its invoice is cancelled. */
  lemma {:induction false} SameReach(w: World, paymentId: string, i: nat)
    requires Inv(w) && Accepts(w.tables, AllocateForPayment(paymentId, Fifo)) && i < |w.tables.charges|
    ensures var t' := Step(w, AllocateForPayment(paymentId, Fifo)).tables;
      var a := w.tables.payments[paymentId].accountId;
      && |t'.charges| == |w.tables.charges|
      && t'.charges[i] == SettledRow(w.tables.charges[i], AllocationFor(w.tables, paymentId, Fifo))
      && (Allocatable(t'.charges[i], a, t'.invoices)
          <==> Allocatable(w.tables.charges[i], a, w.tables.invoices) && OpenStatus(t'.charges[i].status))
  {
    var t, r := w.tables, w.tables.charges[i];
    var lines, a := AllocationFor(t, paymentId, Fifo), t.payments[paymentId].accountId;
    AllocationOfRows(t, paymentId, Fifo, lines);
    LinesNonNegative(lines, t.charges, a, t.invoices);
    SettleRowsRowwise(t.charges, lines);
    if r.invoiceId.Some? && r.invoiceId.value in t.invoices {
      PromotionTellsPayment(w, paymentId, Fifo, r.invoiceId.value);
    }
  }

  lemma {:induction false} ReadBackWasCarried(w: World, t': Tables, a: string, lines: seq<Line>, c: Charge)
    requires Inv(w) && DistinctRows(t'.charges) && LinesOfRows(lines, w.tables.charges, a, w.tables.invoices)
    requires |t'.charges| == |w.tables.charges|
    requires forall i :: 0 <= i < |t'.charges| ==> t'.charges[i] == SettledRow(w.tables.charges[i], lines)
    requires forall i :: 0 <= i < |t'.charges| ==>
      (Allocatable(t'.charges[i], a, t'.invoices)
       <==> Allocatable(w.tables.charges[i], a, w.tables.invoices) && OpenStatus(t'.charges[i].status))
    requires c in FindOpenForAccount(t', a)
    ensures c in CarryForward(FindOpenForAccount(w.tables, a), lines)
  {
    var rows, open := w.tables.charges, FindOpenForAccount(w.tables, a);
    OpenChargesAreOpenRows(w.tables, a);
    OpenChargesAreOpenRows(t', a);
    var r' :| r' in t'.charges && Allocatable(r', a, t'.invoices) && c == AsCharge(r');
    var i :| 0 <= i < |t'.charges| && t'.charges[i] == r';
    assert rows[i] in rows && Allocatable(rows[i], a, w.tables.invoices);
    RowAfterAllocation(w, a, lines, rows[i]);
    assert AsCharge(rows[i]) in open;
    var k :| 0 <= k < |open| && open[k] == AsCharge(rows[i]);
    assert CarryForward(open, lines)[k] == c;
  }

  lemma {:induction false} CarriedIsReadBack(w: World, t': Tables, a: string, lines: seq<Line>, c: Charge)
    requires Inv(w) && DistinctRows(t'.charges) && LinesOfRows(lines, w.tables.charges, a, w.tables.invoices)
    requires |t'.charges| == |w.tables.charges|
    requires forall i :: 0 <= i < |t'.charges| ==> t'.charges[i] == SettledRow(w.tables.charges[i], lines)
    requires forall i :: 0 <= i < |t'.charges| ==>
      (Allocatable(t'.charges[i], a, t'.invoices)
       <==> Allocatable(w.tables.charges[i], a, w.tables.invoices) && OpenStatus(t'.charges[i].status))
    requires IsOpen(c) && c in CarryForward(FindOpenForAccount(w.tables, a), lines)
    ensures c in FindOpenForAccount(t', a)
  {
    var rows, open := w.tables.charges, FindOpenForAccount(w.tables, a);
    OpenChargesAreOpenRows(w.tables, a);
    OpenChargesAreOpenRows(t', a);
    var k :| 0 <= k < |open| && CarryForward(open, lines)[k] == c;
    assert open[k] in open;
    var r :| r in rows && Allocatable(r, a, w.tables.invoices) && open[k] == AsCharge(r);
    var i :| 0 <= i < |rows| && rows[i] == r;
    RowAfterAllocation(w, a, lines, r);
    assert t'.charges[i] in t'.charges && AsCharge(t'.charges[i]) == c;
  }

  /** What one FIFO payment of `pennies` would give to each line of the account right now. */
  function FifoNow(t: Tables, a: string, pennies: int): seq<Line> {
    FifoWalk(FifoOrder(FindOpenForAccount(t, a)), pennies)
  }

  lemma AllocateStep(w: World, p: string)
    requires Accepts(w.tables, AllocateForPayment(p, Fifo))
    ensures var w' := Step(w, AllocateForPayment(p, Fifo));
      && w'.journal == w.journal + [Allocated(p, w.tables.payments[p].accountId, w.tables.payments[p].amount,
                                              AllocationFor(w.tables, p, Fifo))]
      && w'.tables.payments == w.tables.payments[p := w.tables.payments[p].(stamped := true)]
      && w'.tables.accounts.Keys == w.tables.accounts.Keys
  {
  }

  /** What a FIFO payment would give after another one, in terms of the charges that one read. */
  lemma {:induction false} NextSeesCarried(w: World, p: string, r: int)
    requires Inv(w) && Accepts(w.tables, AllocateForPayment(p, Fifo))
    ensures var a, once := w.tables.payments[p].accountId, Step(w, AllocateForPayment(p, Fifo));
      FifoNow(once.tables, a, r)
      == FifoWalk(FifoOrder(CarryForward(FindOpenForAccount(w.tables, a), AllocationFor(w.tables, p, Fifo))), r)
  {
    var a, x := w.tables.payments[p].accountId, w.tables.payments[p].amount;
    var once := Step(w, AllocateForPayment(p, Fifo));
    var open, lines := FindOpenForAccount(w.tables, a), AllocationFor(w.tables, p, Fifo);
    OpenChargesCompose(w, a);
    PayKeepsIds(open, x);
    assert Pay(open, x).charges == CarryForward(open, lines);
    AllocateKeepsInvariant(w, p, Fifo);
    OpenChargesCompose(once, a);
    ReadBackIsCarriedForward(w, p, lines);
    SameOwingSameWalk(FindOpenForAccount(once.tables, a), CarryForward(open, lines), r);
  }

  // ---------------------------------------------------------------- payments into other accounts

  /** The line `id`, if there is one, is account `a`'s. */
  ghost predicate Belongs(rows: seq<ChargeRow>, id: string, a: string) {
    forall i :: 0 <= i < |rows| && rows[i].id == id ==> rows[i].accountId == a
  }

  /** The account finds the same open row, or none, in both. */
  ghost predicate ReadsSame(r: ChargeRow, r': ChargeRow, a: string, invoices: map<string, InvoiceRow>,
                            invoices': map<string, InvoiceRow>) {
    && (Allocatable(r', a, invoices') <==> Allocatable(r, a, invoices))
    && (Allocatable(r, a, invoices) ==> r' == r)
  }

  lemma {:induction false} SameOpenRows(rows: seq<ChargeRow>, rows': seq<ChargeRow>, a: string,
                                        invoices: map<string, InvoiceRow>, invoices': map<string, InvoiceRow>)
    requires |rows| == |rows'|
    requires forall i :: 0 <= i < |rows| ==> ReadsSame(rows[i], rows'[i], a, invoices, invoices')
    ensures OpenRows(rows', a, invoices') == OpenRows(rows, a, invoices)
  {
    hide Allocatable;
    if rows == [] {
    } else {
      assert ReadsSame(rows[0], rows'[0], a, invoices, invoices');
      SameOpenRows(rows[1..], rows'[1..], a, invoices, invoices');
    }
  }

  lemma {:induction false} OtherRowReadsSame(w: World, p: string, strategy: Strategy, a: string, i: nat)
    requires Inv(w) && Accepts(w.tables, AllocateForPayment(p, strategy)) && i < |w.tables.charges|
    requires w.tables.payments[p].accountId != a
    ensures var t' := Step(w, AllocateForPayment(p, strategy)).tables;
      |t'.charges| == |w.tables.charges| && SameLine(w.tables.charges[i], t'.charges[i])
      && ReadsSame(w.tables.charges[i], t'.charges[i], a, w.tables.invoices, t'.invoices)
  {
    var t, r := w.tables, w.tables.charges[i];
    var lines, owner := AllocationFor(t, p, strategy), t.payments[p].accountId;
    AllocationOfRows(t, p, strategy, lines);
    SettlingTouchesOnlyOpenRows(t.charges, lines, owner, t.invoices, i);
    LinesNonNegative(lines, t.charges, owner, t.invoices);
    SettleKeepsLines(t.charges, lines);
    if r.invoiceId.Some? && r.invoiceId.value in t.invoices {
      PromotionTellsPayment(w, p, strategy, r.invoiceId.value);
    }
  }

  /** A payment into another account changes nothing that the payments into this one read or record. */
  lemma {:induction false} OtherAccountUntouched(w: World, p: string, strategy: Strategy, a: string, id: string)
    requires Inv(w) && Accepts(w.tables, AllocateForPayment(p, strategy))
    requires w.tables.payments[p].accountId != a && Belongs(w.tables.charges, id, a)
    ensures var w' := Step(w, AllocateForPayment(p, strategy));
      && FindOpenForAccount(w'.tables, a) == FindOpenForAccount(w.tables, a)
      && Applied(w'.journal, id) == Applied(w.journal, id) && Credit(w'.journal, a) == Credit(w.journal, a)
  {
    hide ReadsSame, Inv, Applied, Credit;
    var t, w' := w.tables, Step(w, AllocateForPayment(p, strategy));
    var lines, owner := AllocationFor(t, p, strategy), t.payments[p].accountId;
    var entry := Allocated(p, owner, t.payments[p].amount, lines);
    assert |w'.tables.charges| == |t.charges| by {
      if t.charges != [] { OtherRowReadsSame(w, p, strategy, a, 0); } else { EmptyStaysEmpty(w, p, strategy); }
    }
    forall i | 0 <= i < |t.charges|
      ensures ReadsSame(t.charges[i], w'.tables.charges[i], a, t.invoices, w'.tables.invoices)
    {
      OtherRowReadsSame(w, p, strategy, a, i);
    }
    SameOpenRows(t.charges, w'.tables.charges, a, t.invoices, w'.tables.invoices);
    OtherLinesElsewhere(w, p, strategy, a, id);
    AppliedGrows(w.journal, entry, id);
    JournalGrows(w.journal, entry, a, "x");
  }

  lemma {:induction false} EmptyStaysEmpty(w: World, p: string, strategy: Strategy)
    requires Inv(w) && Accepts(w.tables, AllocateForPayment(p, strategy)) && w.tables.charges == []
    ensures Step(w, AllocateForPayment(p, strategy)).tables.charges == []
  {
    var t, lines := w.tables, AllocationFor(w.tables, p, strategy);
    AllocationOfRows(t, p, strategy, lines);
    LinesNonNegative(lines, t.charges, t.payments[p].accountId, t.invoices);
    SettleRowsRowwise(t.charges, lines);
  }

  lemma {:induction false} OtherLinesElsewhere(w: World, p: string, strategy: Strategy, a: string, id: string)
    requires Inv(w) && Accepts(w.tables, AllocateForPayment(p, strategy))
    requires w.tables.payments[p].accountId != a && Belongs(w.tables.charges, id, a)
    ensures AllocatedTo(AllocationFor(w.tables, p, strategy), id) == 0
  {
    var t, lines := w.tables, AllocationFor(w.tables, p, strategy);
    AllocationOfRows(t, p, strategy, lines);
    forall l | l in lines ensures l.chargeLineId != id {
      assert HasRow(l, t.charges, t.payments[p].accountId, t.invoices);
    }
    AllocatedToStranger(lines, id);
  }

  // ---------------------------------------------------------------- any number of stored payments

  /** Completed, unallocated payments, each listed once. */
  ghost predicate Spendable(t: Tables, ps: seq<string>) {
    && (forall i, j :: 0 <= i < j < |ps| ==> ps[i] != ps[j])
    && forall i :: 0 <= i < |ps| ==> Accepts(t, AllocateForPayment(ps[i], Fifo))
  }

  /** FIFO allocations of `ps`, one transaction each. */
  function PayEach(w: World, ps: seq<string>): World
    decreases |ps|
  {
    if ps == [] then w else PayEach(Step(w, AllocateForPayment(ps[0], Fifo)), ps[1..])
  }

  function PaidInto(t: Tables, a: string): string -> int {
    (p: string) => if p in t.payments && t.payments[p].accountId == a then NonNegative(t.payments[p].amount) else 0
  }

  /** Pennies that the payments bring to account `a`. */
  function Paid(t: Tables, a: string, ps: seq<string>): int { SumOf(ps, PaidInto(t, a)) }

  /** Allocating one payment leaves the others spendable and their amounts alone. */
  lemma {:induction false} RestStaysSpendable(w: World, ps: seq<string>)
    requires Inv(w) && ps != [] && Spendable(w.tables, ps)
    ensures Accepts(w.tables, AllocateForPayment(ps[0], Fifo))
    ensures var once := Step(w, AllocateForPayment(ps[0], Fifo)); Inv(once) && Spendable(once.tables, ps[1..])
  {
    hide Inv, Step, NonNegative;
    AllocateKeepsInvariant(w, ps[0], Fifo);
    AllocateStep(w, ps[0]);
  }

  lemma {:induction false} PaidFirst(w: World, a: string, ps: seq<string>)
    requires Inv(w) && ps != [] && Accepts(w.tables, AllocateForPayment(ps[0], Fifo))
    ensures Paid(Step(w, AllocateForPayment(ps[0], Fifo)).tables, a, ps[1..]) == Paid(w.tables, a, ps[1..]) >= 0
    ensures Paid(w.tables, a, ps) == PaidInto(w.tables, a)(ps[0]) + Paid(w.tables, a, ps[1..])
  {
    hide Inv, Step;
    var once, rest := Step(w, AllocateForPayment(ps[0], Fifo)), ps[1..];
    AllocateStep(w, ps[0]);
    SumOfEqual(rest, rest, PaidInto(once.tables, a), PaidInto(w.tables, a));
    PaidNonNegative(w.tables, a, rest);
  }

  lemma {:induction false} PaidNonNegative(t: Tables, a: string, ps: seq<string>)
    ensures Paid(t, a, ps) >= 0
  {
    if ps == [] {
    } else {
      PaidNonNegative(t, a, ps[1..]);
    }
  }

  lemma {:induction false} StaysBelonging(w: World, p: string, id: string, a: string)
    requires Inv(w) && Accepts(w.tables, AllocateForPayment(p, Fifo)) && Belongs(w.tables.charges, id, a)
    ensures Belongs(Step(w, AllocateForPayment(p, Fifo)).tables.charges, id, a)
  {
    var t, lines := w.tables, AllocationFor(w.tables, p, Fifo);
    AllocationOfRows(t, p, Fifo, lines);
    LinesNonNegative(lines, t.charges, t.payments[p].accountId, t.invoices);
    SettleKeepsLines(t.charges, lines);
    forall i | 0 <= i < |t.charges| ensures SameLine(t.charges[i], SettleRows(t.charges, lines)[i]) {}
  }

  /** What a journal records for an account and a line after `pennies` more were paid in by FIFO from
      the state `t`. */
  ghost predicate PaidIn(journal: seq<Entry>, journal': seq<Entry>, t: Tables, a: string, pennies: int, id: string) {
    && Applied(journal', id) == Applied(journal, id) + AllocatedTo(FifoNow(t, a, pennies), id)
    && Credit(journal', a) == Credit(journal, a) + pennies - TotalAllocated(FifoNow(t, a, pennies))
  }

  /** One payment and what the payments after it record add up to one payment of both amounts. */
  lemma {:induction false} PaidInTwice(w: World, p: string, journal': seq<Entry>, y: int, id: string)
    requires Inv(w) && Accepts(w.tables, AllocateForPayment(p, Fifo)) && y >= 0
    requires var once := Step(w, AllocateForPayment(p, Fifo));
      PaidIn(once.journal, journal', once.tables, w.tables.payments[p].accountId, y, id)
    ensures var payment := w.tables.payments[p];
      PaidIn(w.journal, journal', w.tables, payment.accountId, NonNegative(payment.amount) + y, id)
  {
    hide Inv, Step, FindOpenForAccount, FifoWalk, FifoOrder, CarryForward, Applied, Credit;
    var payment := w.tables.payments[p];
    var entry := Allocated(p, payment.accountId, payment.amount, AllocationFor(w.tables, p, Fifo));
    AllocateStep(w, p);
    NextSeesCarried(w, p, y);
    OpenChargesCompose(w, payment.accountId);
    PaidTwice(FindOpenForAccount(w.tables, payment.accountId), NonNegative(payment.amount), y, id);
    AppliedGrows(w.journal, entry, id);
    JournalGrows(w.journal, entry, payment.accountId, "x");
  }

  lemma {:induction false} NothingPaidIn(w: World, a: string, id: string)
    ensures PaidIn(w.journal, w.journal, w.tables, a, 0, id)
  {
    var sorted := FifoOrder(FindOpenForAccount(w.tables, a));
    NothingToAllocate(sorted, id);
    FifoConserves(sorted, 0);
    TotalOutstandingNonNegative(sorted);
  }

  lemma {:induction false} PaidInElsewhere(w: World, p: string, a: string, journal': seq<Entry>, y: int, id: string)
    requires Inv(w) && Accepts(w.tables, AllocateForPayment(p, Fifo)) && w.tables.payments[p].accountId != a
    requires Belongs(w.tables.charges, id, a)
    requires var once := Step(w, AllocateForPayment(p, Fifo)); PaidIn(once.journal, journal', once.tables, a, y, id)
    ensures PaidIn(w.journal, journal', w.tables, a, y, id)
  {
    hide Inv, Step, FindOpenForAccount, FifoWalk, FifoOrder, Applied, Credit;
    OtherAccountUntouched(w, p, Fifo, a, id);
  }

  /** Any number of stored FIFO payments, into whatever accounts and in whatever order, apply to every
      line of an account and credit the account exactly as one payment of the sum of those into it. */
  lemma {:induction false} StoredPaymentsCompose(w: World, a: string, ps: seq<string>, id: string)
    requires Inv(w) && Spendable(w.tables, ps) && Belongs(w.tables.charges, id, a)
    ensures Inv(PayEach(w, ps))
    ensures PaidIn(w.journal, PayEach(w, ps).journal, w.tables, a, Paid(w.tables, a, ps), id)
    decreases |ps|
  {
    hide Inv, Step, Accepts, PaidIn, Paid, Belongs;
    if ps == [] {
      NothingPaidIn(w, a, id);
      assert Paid(w.tables, a, []) == 0 by { NoPayments(w.tables, a); }
    } else {
      var once := Step(w, AllocateForPayment(ps[0], Fifo));
      RestStaysSpendable(w, ps);
      StaysBelonging(w, ps[0], id, a);
      StoredPaymentsCompose(once, a, ps[1..], id);
      OnePaidIn(w, a, ps, id);
    }
  }

  lemma NoPayments(t: Tables, a: string)
    ensures Paid(t, a, []) == 0
  {
  }

  lemma {:induction false} OnePaidIn(w: World, a: string, ps: seq<string>, id: string)
    requires Inv(w) && ps != [] && Accepts(w.tables, AllocateForPayment(ps[0], Fifo))
    requires Belongs(w.tables.charges, id, a)
    requires var once := Step(w, AllocateForPayment(ps[0], Fifo));
      PaidIn(once.journal, PayEach(once, ps[1..]).journal, once.tables, a, Paid(once.tables, a, ps[1..]), id)
    ensures PaidIn(w.journal, PayEach(w, ps).journal, w.tables, a, Paid(w.tables, a, ps), id)
  {
    hide Inv, Step, PaidIn, Paid, Belongs;
    var journal' := PayEach(w, ps).journal;
    PaidFirst(w, a, ps);
    if w.tables.payments[ps[0]].accountId == a {
      PaidInTwice(w, ps[0], journal', Paid(w.tables, a, ps[1..]), id);
    } else {
      PaidInElsewhere(w, ps[0], a, journal', Paid(w.tables, a, ps[1..]), id);
    }
  }

  /** The same on charges alone, line by line. */
  lemma {:induction false} PaidTwice(open: seq<Charge>, x: int, y: int, id: string)
    requires DistinctIds(open) && PriorAllocationsValid(open) && x >= 0 && y >= 0
    ensures var first := FifoWalk(FifoOrder(open), x);
      var second := FifoWalk(FifoOrder(CarryForward(open, first)), y);
      var both := FifoWalk(FifoOrder(open), x + y);
      && AllocatedTo(both, id) == AllocatedTo(first, id) + AllocatedTo(second, id)
      && TotalAllocated(both) == TotalAllocated(first) + TotalAllocated(second)
  {
    var first := FifoWalk(FifoOrder(open), x);
    var carried := CarryForward(open, first);
    var second, both := FifoWalk(FifoOrder(carried), y), FifoWalk(FifoOrder(open), x + y);
    PayTwice(open, x, y);
    assert Pay(open, x) == Settlement(carried, x - TotalAllocated(first));
    if k :| 0 <= k < |open| && open[k].id == id {
      assert carried[k] == Carry(first)(open[k]);
      assert CarryForward(carried, second)[k] == CarryForward(open, both)[k];
    } else {
      NothingForOthers(open, x, id);
      NothingForOthers(carried, y, id);
      NothingForOthers(open, x + y, id);
    }
  }

  lemma {:induction false} NothingForOthers(charges: seq<Charge>, payment: int, id: string)
    requires forall k :: 0 <= k < |charges| ==> charges[k].id != id
    ensures AllocatedTo(FifoWalk(FifoOrder(charges), payment), id) == 0
  {
    FifoOrderIsSorted(charges);
    forall c | c in FifoOrder(charges) ensures c.id != id { assert c in multiset(charges); }
    WalkGivesNothingToStrangers(FifoOrder(charges), payment, id);
  }
}
