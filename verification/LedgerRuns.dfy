/** The ledger invariant over whole runs, and what it says about the tables a reader sees. */
module LedgerRuns {
  import opened Prelude
  import Sorting
  import opened PaymentAllocation
  import opened ProportionalAllocation
  import opened LedgerTables
  import opened LedgerInvariant

  // ---------------------------------------------------------------- steps that add rows

  ghost predicate SameApplied(journal: seq<Entry>, journal': seq<Entry>) {
    forall id :: Applied(journal', id) == Applied(journal, id)
  }

  lemma {:induction false} PlainEntryAppliesNothing(journal: seq<Entry>, e: Entry)
    requires !e.Allocated?
    ensures SameApplied(journal, journal + [e])
  {
    forall id ensures Applied(journal + [e], id) == Applied(journal, id) { AppliedGrows(journal, e, id); }
  }

  lemma {:induction false} NewRowsMoveOwed(rows: seq<ChargeRow>, journal: seq<Entry>, journal': seq<Entry>,
                        owner: string, forInvoice: Option<string>, lines: seq<NewLine>, a: string, inv: string)
    requires SameApplied(journal, journal')
    requires forall i :: 0 <= i < |lines| ==> Applied(journal, lines[i].id) == 0
    ensures var rows' := rows + Map(RowFrom(owner, forInvoice), lines);
      && SumOf(rows', OwedBy(a, journal'))
         == SumOf(rows, OwedBy(a, journal)) + (if a == owner then SumOf(lines, NewLineAmount) else 0)
      && SumOf(rows', AppliedTowards(inv, journal')) == SumOf(rows, AppliedTowards(inv, journal))
  {
    var added := Map(RowFrom(owner, forInvoice), lines);
    SumOfAppend(rows, added, OwedBy(a, journal'));
    SumOfAppend(rows, added, AppliedTowards(inv, journal'));
    SumOfEqual(rows, rows, OwedBy(a, journal'), OwedBy(a, journal));
    SumOfEqual(rows, rows, AppliedTowards(inv, journal'), AppliedTowards(inv, journal));
    SumOfZero(added, AppliedTowards(inv, journal'));
    if a == owner {
      SumOfEqual(added, lines, OwedBy(a, journal'), NewLineAmount);
    } else {
      SumOfZero(added, OwedBy(a, journal'));
    }
  }

  lemma NewRowsKeepRows(w: World, journal': seq<Entry>, owner: string, forInvoice: Option<string>, lines: seq<NewLine>)
    requires KeysOk(w) && RowsOk(w) && FreshIds(w.tables.charges, lines) && SameApplied(w.journal, journal')
    ensures var rows' := w.tables.charges + Map(RowFrom(owner, forInvoice), lines);
      && DistinctRows(rows')
      && (forall r :: r in rows' ==> RowOk(r, journal'))
      && (forall id :: Unknown(id, rows') ==> Applied(journal', id) == 0)
      && (forall r :: r in rows' ==> r in w.tables.charges || (r.accountId == owner && r.invoiceId == forInvoice))
    ensures forall i :: 0 <= i < |lines| ==> Applied(w.journal, lines[i].id) == 0
  {
  }

  lemma {:induction false} CreateWithLinesKeepsInvariant(w: World, e: Event)
    requires Inv(w) && Accepts(w.tables, e) && e.CreateWithLines?
    ensures Inv(Step(w, e))
  {
    hide SumOf, Applied, Credit, Direct, LegacyNet;
    var t, w', total := w.tables, Step(w, e), SumOf(e.lines, NewLineAmount);
    var entry := ChargedUnposted(e.accountId, total);
    PlainEntryAppliesNothing(w.journal, entry);
    NewRowsKeepRows(w, w'.journal, e.accountId, Some(e.invoiceId), e.lines);
    forall a | a in w'.tables.accounts ensures AccountOk(w'.tables.accounts[a], a, w'.tables.charges, w'.journal) {
      assert AccountOk(t.accounts[a], a, t.charges, w.journal);
      NewRowsMoveOwed(t.charges, w.journal, w'.journal, e.accountId, Some(e.invoiceId), e.lines, a, "x");
      JournalGrows(w.journal, entry, a, "x");
    }
    forall inv | inv in w'.tables.invoices
      ensures InvoiceOk(w'.tables.invoices[inv], inv, w'.tables.charges, w'.journal)
    {
      NewRowsMoveOwed(t.charges, w.journal, w'.journal, e.accountId, Some(e.invoiceId), e.lines, "x", inv);
      JournalGrows(w.journal, entry, "x", inv);
      if inv == e.invoiceId {
        UnknownInvoiceIsUnpaid(w, inv);
      } else {
        assert InvoiceOk(t.invoices[inv], inv, t.charges, w.journal);
      }
    }
    forall x | x in w'.journal ensures EntryKeysOk(x, w'.tables) {
      if x in w.journal { assert EntryKeysOk(x, t); }
    }
  }

  lemma {:induction false} UnknownInvoiceIsUnpaid(w: World, inv: string)
    requires KeysOk(w) && inv !in w.tables.invoices
    ensures SumOf(w.tables.charges, AppliedTowards(inv, w.journal)) == 0 && Direct(w.journal, inv) == 0
  {
    SumOfZero(w.tables.charges, AppliedTowards(inv, w.journal));
    forall i | 0 <= i < |w.journal| ensures DirectBy(inv)(w.journal[i]) == 0 {
      assert EntryKeysOk(w.journal[i], w.tables);
    }
    SumOfZero(w.journal, DirectBy(inv));
  }

  lemma {:induction false} CreateChargeKeepsInvariant(w: World, e: Event)
    requires Inv(w) && Accepts(w.tables, e) && e.CreateCharge?
    ensures Inv(Step(w, e))
  {
    var t, w' := w.tables, Step(w, e);
    var entry := LegacyCharged(e.accountId, e.line.amount);
    PlainEntryAppliesNothing(w.journal, entry);
    NewRowsKeepRows(w, w'.journal, e.accountId, e.forInvoice, [e.line]);
    assert [e.line][1..] == [];
    forall a | a in w'.tables.accounts ensures AccountOk(w'.tables.accounts[a], a, w'.tables.charges, w'.journal) {
      assert AccountOk(t.accounts[a], a, t.charges, w.journal);
      NewRowsMoveOwed(t.charges, w.journal, w'.journal, e.accountId, e.forInvoice, [e.line], a, "x");
      JournalGrows(w.journal, entry, a, "x");
    }
    forall inv | inv in w'.tables.invoices
      ensures InvoiceOk(w'.tables.invoices[inv], inv, w'.tables.charges, w'.journal)
    {
      assert InvoiceOk(t.invoices[inv], inv, t.charges, w.journal);
      NewRowsMoveOwed(t.charges, w.journal, w'.journal, e.accountId, e.forInvoice, [e.line], "x", inv);
      JournalGrows(w.journal, entry, "x", inv);
    }
    forall x | x in w'.journal ensures EntryKeysOk(x, w'.tables) {
      if x in w.journal { assert EntryKeysOk(x, t); }
    }
  }

  // ---------------------------------------------------------------- the other steps

  lemma {:induction false} CreatePaymentKeepsInvariant(w: World, e: Event)
    requires Inv(w) && Accepts(w.tables, e) && e.CreatePayment?
    ensures Inv(Step(w, e))
  {
    hide SumOf, Applied, Credit, Direct, LegacyNet;
    var t, w' := w.tables, Step(w, e);
    var entry := LegacyPaid(e.accountId, e.amount, e.forInvoice);
    PlainEntryAppliesNothing(w.journal, entry);
    forall r | r in t.charges ensures RowOk(r, w'.journal) { assert RowOk(r, w.journal); }
    forall a | a in w'.tables.accounts ensures AccountOk(w'.tables.accounts[a], a, t.charges, w'.journal) {
      assert AccountOk(t.accounts[a], a, t.charges, w.journal);
      SumOfEqual(t.charges, t.charges, OwedBy(a, w'.journal), OwedBy(a, w.journal));
      JournalGrows(w.journal, entry, a, "x");
    }
    forall inv | inv in w'.tables.invoices ensures InvoiceOk(w'.tables.invoices[inv], inv, t.charges, w'.journal) {
      assert InvoiceOk(t.invoices[inv], inv, t.charges, w.journal);
      SumOfEqual(t.charges, t.charges, AppliedTowards(inv, w'.journal), AppliedTowards(inv, w.journal));
      JournalGrows(w.journal, entry, "x", inv);
    }
    forall x | x in w'.journal ensures EntryKeysOk(x, w'.tables) {
      if x in w.journal { assert EntryKeysOk(x, t); }
    }
  }

  lemma {:induction false} OpenAccountKeepsInvariant(w: World, e: Event)
    requires Inv(w) && Accepts(w.tables, e) && e.OpenAccount?
    ensures Inv(Step(w, e))
  {
    var t, w', a := w.tables, Step(w, e), e.accountId;
    SumOfZero(t.charges, OwedBy(a, w.journal));
    forall i | 0 <= i < |w.journal| ensures w.journal[i].accountId != a { assert EntryKeysOk(w.journal[i], t); }
    SumOfZero(w.journal, CreditBy(a));
    SumOfZero(w.journal, LegacyBy(a));
    forall b | b in w'.tables.accounts ensures AccountOk(w'.tables.accounts[b], b, t.charges, w.journal) {
      if b != a { assert AccountOk(t.accounts[b], b, t.charges, w.journal); }
    }
    forall x | x in w'.journal ensures EntryKeysOk(x, w'.tables) { assert EntryKeysOk(x, t); }
  }

  lemma {:induction false} QuietStepKeepsInvariant(w: World, e: Event)
    requires Inv(w) && Accepts(w.tables, e) && (e.AddPayment? || e.SetInvoiceStatus?)
    ensures Inv(Step(w, e))
  {
    var t, w' := w.tables, Step(w, e);
    forall inv | inv in w'.tables.invoices ensures InvoiceOk(w'.tables.invoices[inv], inv, t.charges, w.journal) {
      assert InvoiceOk(t.invoices[inv], inv, t.charges, w.journal);
    }
    forall x | x in w'.journal ensures EntryKeysOk(x, w'.tables) { assert EntryKeysOk(x, t); }
  }

  lemma {:induction false} StepKeepsInvariant(w: World, e: Event)
    requires Inv(w)
    ensures Inv(Step(w, e))
  {
    if Accepts(w.tables, e) {
      match e
      case OpenAccount(_) => OpenAccountKeepsInvariant(w, e);
      case CreateWithLines(_, _, _, _, _, _) => CreateWithLinesKeepsInvariant(w, e);
      case CreateCharge(_, _, _) => CreateChargeKeepsInvariant(w, e);
      case AddPayment(_, _, _, _) => QuietStepKeepsInvariant(w, e);
      case CreatePayment(_, _, _, _, _) => CreatePaymentKeepsInvariant(w, e);
      case SetInvoiceStatus(_, _) => QuietStepKeepsInvariant(w, e);
      case AllocateForPayment(p, strategy) => AllocateKeepsInvariant(w, p, strategy);
    }
  }

  /** The invariant holds after every run from an empty ledger. */
  lemma {:induction false} RunKeepsInvariant(w: World, events: seq<Event>)
    requires Inv(w)
    ensures Inv(Run(w, events))
    decreases |events|
  {
    if events == [] {
    } else {
      StepKeepsInvariant(w, events[0]);
      RunKeepsInvariant(Step(w, events[0]), events[1..]);
    }
  }

  lemma {:induction false} EveryRunKeepsTheBooks(events: seq<Event>)
    ensures Inv(Run(EMPTY, events))
  {
    RunKeepsInvariant(EMPTY, events);
  }

  /** A payment is spent by its first allocation; asking again changes nothing. */
  lemma SecondAllocationIsRefused(w: World, paymentId: string, first: Strategy, second: Strategy)
    requires Accepts(w.tables, AllocateForPayment(paymentId, first))
    ensures var once := Step(w, AllocateForPayment(paymentId, first));
      Step(once, AllocateForPayment(paymentId, second)) == once
  {
  }

  // ---------------------------------------------------------------- the promise about PAID lines

  /** The comments' promise: a PAID line shows its whole amount as paid. */
  ghost predicate PaidShowsAmount(rows: seq<ChargeRow>) {
    forall r :: r in rows && r.status == PAID ==> r.paidAmount == r.amount
  }

  lemma {:induction false} ClosingBreaksPromise(rows: seq<ChargeRow>, journal: seq<Entry>, lines: seq<Line>, l: Line,
                             owner: string, invoices: map<string, InvoiceRow>)
    requires DistinctRows(rows) && LinesOfRows(lines, rows, owner, invoices) && l in lines && Flips(l)
    requires forall r :: r in rows ==> RowOk(r, journal)
    ensures !PaidShowsAmount(SettleRows(rows, lines))
  {
    LinesNonNegative(lines, rows, owner, invoices);
    SettleRowsRowwise(rows, lines);
    assert HasRow(l, rows, owner, invoices);
    var k :| 0 <= k < |rows| && LineOf(l, rows[k], owner, invoices);
    assert rows[k] in rows && RowOk(rows[k], journal);
    var r := SettleRows(rows, lines)[k];
    assert r == SettledRow(rows[k], lines) && r in SettleRows(rows, lines);
    assert r.status == PAID && r.paidAmount < r.amount;
  }

  lemma {:induction false} NoClosingKeepsPromise(rows: seq<ChargeRow>, lines: seq<Line>)
    requires PaidShowsAmount(rows)
    requires forall l :: l in lines ==> l.amount >= 0 && !Flips(l)
    ensures PaidShowsAmount(SettleRows(rows, lines))
  {
    SettleRowsRowwise(rows, lines);
    assert PlannedIds(lines) == {};
    forall r | r in SettleRows(rows, lines) && r.status == PAID ensures r.paidAmount == r.amount {
      var i :| 0 <= i < |rows| && SettleRows(rows, lines)[i] == r;
      assert rows[i] in rows && r == SettledRow(rows[i], lines);
    }
  }

  /** The code keeps the promise in an allocation if and only if that allocation closes no line. */
  lemma {:induction false} AllocationKeepsPromiseIff(w: World, paymentId: string, strategy: Strategy, lines: seq<Line>)
    requires Inv(w) && Accepts(w.tables, AllocateForPayment(paymentId, strategy))
    requires PaidShowsAmount(w.tables.charges) && lines == AllocationFor(w.tables, paymentId, strategy)
    ensures PaidShowsAmount(Step(w, AllocateForPayment(paymentId, strategy)).tables.charges)
       <==> forall l :: l in lines ==> !Flips(l)
  {
    var t := w.tables;
    var owner := t.payments[paymentId].accountId;
    AllocationOfRows(t, paymentId, strategy, lines);
    LinesNonNegative(lines, t.charges, owner, t.invoices);
    if l :| l in lines && Flips(l) {
      ClosingBreaksPromise(t.charges, w.journal, lines, l, owner, t.invoices);
    } else {
      NoClosingKeepsPromise(t.charges, lines);
    }
  }

  /** Under FIFO that is the case exactly when the payment is smaller than the first debt it meets. */
  lemma {:induction false} FifoClosesNothingIff(sorted: seq<Charge>, payment: int, lines: seq<Line>)
    requires lines == FifoWalk(sorted, payment)
    ensures (forall l :: l in lines ==> !Flips(l))
       <==> (Owing(sorted) == [] || payment < OutstandingFor(Owing(sorted)[0]))
  {
    FifoWalkIsWaterfall(sorted, payment);
    var owing := Owing(sorted);
    if owing != [] {
      assert owing[..0] == [];
      assert lines[0] in lines && lines[0].amount == Waterfall(owing, payment, 0);
      if payment < OutstandingFor(owing[0]) {
        FifoShape(sorted, payment, lines);
        forall l | l in lines ensures !Flips(l) {
          var k :| 0 <= k < |lines| && lines[k] == l;
          assert k > 0 ==> lines[k].amount == 0;
        }
      }
    }
  }

  /** Pro rata it is the case exactly when no line meets its debt, which the debts and the payment tell. */
  lemma {:induction false} ProportionalClosesNothingIff(charges: seq<Charge>, payment: int, lines: seq<Line>, k: nat)
    requires lines == Allocation(Proportional, payment, charges)
    requires TotalOutstanding(charges) > 0 ==> LastOwes(charges, k)
    ensures (forall l :: l in lines ==> !Flips(l))
       <==> (TotalOutstanding(charges) > 0 ==>
               forall i :: 0 <= i < |charges| ==> !MeetsDebt(NonNegative(payment), charges, k, i))
  {
    ProportionalWithinDebt(NonNegative(payment), charges);
    if TotalOutstanding(charges) > 0 {
      forall i | 0 <= i < |charges|
        ensures Flips(lines[i]) <==> MeetsDebt(NonNegative(payment), charges, k, i)
      {
        CoveredIffMet(NonNegative(payment), charges, k, i);
      }
      assert forall i :: 0 <= i < |lines| ==> lines[i] in lines;
    }
  }

  /** A line that left the open statuses is never written again by any later step, so a broken
      promise stays broken. */
  lemma {:induction false} ClosedLinesAreFinal(w: World, e: Event, r: ChargeRow)
    requires Inv(w) && r in w.tables.charges && !OpenStatus(r.status)
    ensures r in Step(w, e).tables.charges
  {
    if Accepts(w.tables, e) && e.AllocateForPayment? {
      var t, lines := w.tables, AllocationFor(w.tables, e.paymentId, e.strategy);
      AllocationOfRows(t, e.paymentId, e.strategy, lines);
      LinesNonNegative(lines, t.charges, t.payments[e.paymentId].accountId, t.invoices);
      SettleRowsRowwise(t.charges, lines);
      var i :| 0 <= i < |t.charges| && t.charges[i] == r;
      assert SettleRows(t.charges, lines)[i] == r;
    }
  }

  /** Incrementing before flipping would keep the promise: both orders leave the same statuses and
      differ on the closed lines only, where incrementing first shows the whole amount and the
      code's order shows what was paid before. */
  lemma {:induction false} IncrementFirstWouldKeepPromise(w: World, paymentId: string, strategy: Strategy,
                                                          lines: seq<Line>)
    requires Inv(w) && Accepts(w.tables, AllocateForPayment(paymentId, strategy))
    requires lines == AllocationFor(w.tables, paymentId, strategy)
    ensures var rows := w.tables.charges;
      var code, documented := SettleRows(rows, lines), SettleRowsIncrementFirst(rows, lines);
      && |code| == |documented| == |rows|
      && forall i :: 0 <= i < |rows| ==>
           if OpenStatus(rows[i].status) && rows[i].id in PlannedIds(lines)
           then documented[i] == rows[i].(status := PAID, paidAmount := rows[i].amount)
                && code[i] == rows[i].(status := PAID) && rows[i].paidAmount < rows[i].amount
           else documented[i] == code[i]
  {
    var t := w.tables;
    var rows, owner := t.charges, t.payments[paymentId].accountId;
    AllocationOfRows(t, paymentId, strategy, lines);
    LinesNonNegative(lines, rows, owner, t.invoices);
    SettleRowsRowwise(rows, lines);
    IncrementsAddUp(rows, lines);
    forall i | 0 <= i < |rows| && OpenStatus(rows[i].status) && rows[i].id in PlannedIds(lines)
      ensures rows[i].paidAmount + AllocatedTo(lines, rows[i].id) == rows[i].amount > rows[i].paidAmount
    {
      assert rows[i] in rows && RowOk(rows[i], w.journal);
      PlannedRowIsMet(rows, lines, owner, t.invoices, rows[i]);
    }
  }

  // ---------------------------------------------------------------- what the tables alone show

  function ShownTowards(inv: string): ChargeRow -> int {
    (r: ChargeRow) => if r.invoiceId == Some(inv) then r.paidAmount else 0
  }

  function HiddenTowards(inv: string, journal: seq<Entry>): ChargeRow -> int {
    (r: ChargeRow) => if r.invoiceId == Some(inv) then Applied(journal, r.id) - r.paidAmount else 0
  }

  /** An invoice is never behind the paid amounts its lines show, and it matches them if and only if
      no allocation has closed one of its lines. */
  lemma {:induction false} InvoiceMatchesItsLinesIff(w: World, inv: string)
    requires Inv(w) && inv in w.tables.invoices
    ensures var shown, booked := SumOf(w.tables.charges, ShownTowards(inv)),
                                 w.tables.invoices[inv].paidAmount - Direct(w.journal, inv);
      && shown <= booked
      && (shown == booked <==>
          forall r :: r in w.tables.charges && r.invoiceId == Some(inv) && !OpenStatus(r.status) ==>
            Applied(w.journal, r.id) == 0)
  {
    var rows := w.tables.charges;
    assert InvoiceOk(w.tables.invoices[inv], inv, rows, w.journal);
    SumOfPointwise(rows, rows, AppliedTowards(inv, w.journal), ShownTowards(inv), HiddenTowards(inv, w.journal));
    forall i | 0 <= i < |rows|
      ensures HiddenTowards(inv, w.journal)(rows[i]) >= 0
      ensures HiddenTowards(inv, w.journal)(rows[i]) == 0
         <==> !(rows[i].invoiceId == Some(inv) && !OpenStatus(rows[i].status) && Applied(w.journal, rows[i].id) != 0)
    {
      assert rows[i] in rows && RowOk(rows[i], w.journal);
    }
    NonNegativeSum(rows, HiddenTowards(inv, w.journal));
  }

  lemma {:induction false} NonNegativeSum<T>(xs: seq<T>, f: T -> int)
    requires forall i :: 0 <= i < |xs| ==> f(xs[i]) >= 0
    ensures SumOf(xs, f) >= 0
    ensures SumOf(xs, f) == 0 <==> forall i :: 0 <= i < |xs| ==> f(xs[i]) == 0
  {
    if xs == [] {
    } else {
      NonNegativeSum(xs[1..], f);
      assert (forall i :: 0 <= i < |xs| ==> f(xs[i]) == 0) ==> forall i :: 0 <= i < |xs[1..]| ==> f(xs[1..][i]) == 0;
      assert forall i :: 0 < i < |xs| ==> xs[i] == xs[1..][i - 1];
    }
  }

  /** What a reader should count as settled: a closed line in full, an open one as shown. */
  function UnsettledOn(a: string): ChargeRow -> int {
    (r: ChargeRow) => if r.accountId != a then 0 else if r.status == PAID then 0 else r.amount - r.paidAmount
  }

  /** Read that way the tables give the balance, provided no line was entered as already paid. */
  lemma {:induction false} BalanceFromTables(w: World, a: string)
    requires Inv(w) && a in w.tables.accounts
    requires forall r :: r in w.tables.charges && r.status == PAID && r.amount != 0 ==> Applied(w.journal, r.id) > 0
    ensures w.tables.accounts[a].balance == SumOf(w.tables.charges, UnsettledOn(a)) - Credit(w.journal, a)
  {
    var rows := w.tables.charges;
    forall i | 0 <= i < |rows| ensures OwedBy(a, w.journal)(rows[i]) == UnsettledOn(a)(rows[i]) {
      assert rows[i] in rows && RowOk(rows[i], w.journal);
    }
    SumOfEqual(rows, rows, OwedBy(a, w.journal), UnsettledOn(a));
    assert AccountOk(w.tables.accounts[a], a, rows, w.journal);
  }

  // ---------------------------------------------------------------- the reported leftover

  /** After an allocation an account's balance is its debts less its credit before and the leftover the
      outcome reports, if and only if lines and leftover add up to the payment: always under FIFO, and pro
      rata when the drift does not push its line below zero. */
  lemma {:induction false} LeftoverIsCreditedIff(w: World, p: string, strategy: Strategy)
    requires Inv(w) && Accepts(w.tables, AllocateForPayment(p, strategy))
    ensures var t, payment, w' := w.tables, w.tables.payments[p], Step(w, AllocateForPayment(p, strategy));
      var a, open, pool := payment.accountId, FindOpenForAccount(t, payment.accountId), NonNegative(payment.amount);
      w'.tables.accounts[a].balance == SumOf(w'.tables.charges, OwedBy(a, w'.journal)) - Credit(w.journal, a)
                                       - Max(0, pool - TotalAllocated(AllocationFor(t, p, strategy)))
      <==> (strategy == Fifo || TotalOutstanding(open) <= 0
            || DriftLine(pool, open).amount + Drift(pool, open) >= 0)
  {
    hide FindOpenForAccount, Allocation, TotalAllocated, Drift, DriftLine, SumOf, Credit;
    var payment, w' := w.tables.payments[p], Step(w, AllocateForPayment(p, strategy));
    var a, lines := payment.accountId, AllocationFor(w.tables, p, strategy);
    AllocateKeepsInvariant(w, p, strategy);
    assert a in w'.tables.accounts;
    assert AccountOk(w'.tables.accounts[a], a, w'.tables.charges, w'.journal);
    JournalGrows(w.journal, Allocated(p, a, payment.amount, lines), a, "x");
    PaymentConservedIff(strategy, payment.amount, FindOpenForAccount(w.tables, a));
  }

  // ---------------------------------------------------------------- a short run

  const POUND_ROW := ChargeRow("c1", "a", None, 100, 0, PENDING, None, 0)

  const POUND_LINE := Line("c1", None, 100, 100, true)

  /** Paying the only open row in full closes it with its old paid amount. */
  lemma {:induction false} PoundAllocated(t: Tables)
    requires t.charges == [POUND_ROW] && "p" in t.payments
    requires t.payments["p"].accountId == "a" && t.payments["p"].amount == 100
    ensures AllocationFor(t, "p", Fifo) == [POUND_LINE]
    ensures SettleRows([POUND_ROW], [POUND_LINE]) == [POUND_ROW.(status := PAID)]
  {
    var c := AsCharge(POUND_ROW);
    assert [POUND_ROW][1..] == [] && [c][1..] == [];
    assert OpenRows([POUND_ROW], "a", t.invoices) == [c] + OpenRows([], "a", t.invoices);
    SingleSort(c);
    assert FifoWalk([c], 100) == [POUND_LINE] + FifoWalk([], 0);
    SettleRowsRowwise([POUND_ROW], [POUND_LINE]);
    assert SettledRow(POUND_ROW, [POUND_LINE]) == POUND_ROW.(status := PAID) by {
      assert POUND_LINE in [POUND_LINE] && Flips(POUND_LINE);
    }
  }

  /** A £1 charge paid in full by a £1 payment ends PAID with nothing shown as paid. */
  lemma {:induction false} PaidLineShowsNothingWitness()
    ensures var line := NewLine("c1", 100, PENDING, None, 0);
      var w := Run(EMPTY, [OpenAccount("a"), CreateCharge("a", None, line), AddPayment("p", "a", 100, true),
                           AllocateForPayment("p", Fifo)]);
      && w.tables.charges == [POUND_ROW.(status := PAID)] && POUND_ROW.paidAmount == 0
      && w.tables.accounts["a"].balance == 0
  {
    hide AllocationFor, SettleRows, Run;
    var line := NewLine("c1", 100, PENDING, None, 0);
    var e1, e2, e3, e4 := OpenAccount("a"), CreateCharge("a", None, line), AddPayment("p", "a", 100, true),
                          AllocateForPayment("p", Fifo);
    RunOfFour(EMPTY, e1, e2, e3, e4);
    var w2 := Step(Step(EMPTY, e1), e2);
    assert w2.tables.charges == [POUND_ROW];
    var w3 := Step(w2, e3);
    PoundAllocated(w3.tables);
  }

  lemma {:induction false} RunOfFour(w: World, e1: Event, e2: Event, e3: Event, e4: Event)
    ensures Run(w, [e1, e2, e3, e4]) == Step(Step(Step(Step(w, e1), e2), e3), e4)
  {
    hide Step;
    assert [e1, e2, e3, e4][1..] == [e2, e3, e4] && [e2, e3, e4][1..] == [e3, e4];
    assert [e3, e4][1..] == [e4] && [e4][1..] == [];
    var w2 := Step(Step(w, e1), e2);
    assert Run(Step(w2, e3), [e4]) == Run(Step(Step(w2, e3), e4), []);
    assert Run(w2, [e3, e4]) == Run(Step(w2, e3), [e4]);
  }

  lemma {:induction false} SingleSort(c: Charge)
    ensures Sorting.Sort(ReadLeq, [c]) == [c] && FifoOrder([c]) == [c]
  {
    assert [c][1..] == [];
    assert Sorting.Sort(ReadLeq, []) == [] && Sorting.Sort(FifoLeq, []) == [];
  }
}
