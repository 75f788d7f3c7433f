/** The same ledger with the two charge-line updates of an allocation in the order their comments
    describe: increment first, then flip. Every run agrees with the code's run on everything but the
    paid amounts of the lines it closed, and there the books balance line by line. */
module LedgerReordered {
  import opened Prelude
  import opened PaymentAllocation
  import opened ProportionalAllocation
  import opened LedgerTables
  import opened LedgerInvariant
  import opened LedgerRuns

  function StepReordered(w: World, e: Event): World {
    if Accepts(w.tables, e) && e.AllocateForPayment? then
      var lines := AllocationFor(w.tables, e.paymentId, e.strategy);
      var w' := Step(w, e);
      w'.(tables := w'.tables.(charges := SettleRowsIncrementFirst(w.tables.charges, lines)))
    else
      Step(w, e)
  }

  function RunReordered(w: World, events: seq<Event>): World
    decreases |events|
  {
    if events == [] then w else RunReordered(StepReordered(w, events[0]), events[1..])
  }

  /** A row with its paid amount set to what was applied to it. */
  function Restore(journal: seq<Entry>): ChargeRow -> ChargeRow {
    (r: ChargeRow) => r.(paidAmount := Applied(journal, r.id))
  }

  function Restored(w: World): World {
    w.(tables := w.tables.(charges := Map(Restore(w.journal), w.tables.charges)))
  }

  // ---------------------------------------------------------------- both orders read the same charges

  lemma {:induction false} OpenRowsShow(rows: seq<ChargeRow>, journal: seq<Entry>, a: string, invoices: map<string,
                                        InvoiceRow>)
    requires forall r :: r in rows ==> RowOk(r, journal)
    ensures OpenRows(Map(Restore(journal), rows), a, invoices) == OpenRows(rows, a, invoices)
  {
    if rows == [] {
    } else {
      assert RowOk(rows[0], journal);
      OpenRowsShow(rows[1..], journal, a, invoices);
      MapTail(Restore(journal), rows);
      assert Map(Restore(journal), rows)[1..] == Map(Restore(journal), rows[1..]);
    }
  }

  lemma {:induction false} SameAllocation(w: World, paymentId: string, strategy: Strategy)
    requires Inv(w) && paymentId in w.tables.payments
    ensures AllocationFor(Restored(w).tables, paymentId, strategy) == AllocationFor(w.tables, paymentId, strategy)
  {
    OpenRowsShow(w.tables.charges, w.journal, w.tables.payments[paymentId].accountId, w.tables.invoices);
  }

  lemma SameGuards(w: World, e: Event)
    ensures Accepts(Restored(w).tables, e) <==> Accepts(w.tables, e)
  {
  }

  // ---------------------------------------------------------------- one step of both

  /** What incrementing first leaves of a row. */
  function SettledFirst(r: ChargeRow, lines: seq<Line>): ChargeRow {
    Flip(PlannedIds(lines))(Incremented(r, lines))
  }

  lemma {:induction false} IncrementFirstRowwise(rows: seq<ChargeRow>, lines: seq<Line>)
    requires forall l :: l in lines ==> l.amount >= 0
    ensures |SettleRowsIncrementFirst(rows, lines)| == |rows|
    ensures forall i :: 0 <= i < |rows| ==> SettleRowsIncrementFirst(rows, lines)[i] == SettledFirst(rows[i], lines)
  {
    IncrementsAddUp(rows, lines);
  }

  /** On one row: the restored outcome of the code's order is the outcome of the other. */
  lemma {:induction false} RowsAgree(r: ChargeRow, rows: seq<ChargeRow>, journal: seq<Entry>, e: Entry,
                                     invoices: map<string, InvoiceRow>)
    requires r in rows && DistinctRows(rows) && RowOk(r, journal)
    requires e.Allocated? && LinesOfRows(e.lines, rows, e.accountId, invoices)
    ensures SettledFirst(Restore(journal)(r), e.lines) == Restore(journal + [e])(SettledRow(r, e.lines))
  {
    AppliedGrows(journal, e, r.id);
    if !OpenStatus(r.status) {
      forall l | l in e.lines ensures l.chargeLineId != r.id {
        assert HasRow(l, rows, e.accountId, invoices);
        var k :| 0 <= k < |rows| && LineOf(l, rows[k], e.accountId, invoices);
      }
      AllocatedToStranger(e.lines, r.id);
    }
  }

  lemma {:induction false} AllocationsAgree(w: World, paymentId: string, strategy: Strategy)
    requires Inv(w) && Accepts(w.tables, AllocateForPayment(paymentId, strategy))
    ensures StepReordered(Restored(w), AllocateForPayment(paymentId, strategy))
         == Restored(Step(w, AllocateForPayment(paymentId, strategy)))
  {
    var e := AllocateForPayment(paymentId, strategy);
    var t, lines := w.tables, AllocationFor(w.tables, paymentId, strategy);
    var rows, restored, w' := t.charges, Restored(w).tables.charges, Step(w, e);
    var owner := t.payments[paymentId].accountId;
    var entry := Allocated(paymentId, owner, t.payments[paymentId].amount, lines);
    SameGuards(w, e);
    SameAllocation(w, paymentId, strategy);
    AllocationOfRows(t, paymentId, strategy, lines);
    LinesNonNegative(lines, rows, owner, t.invoices);
    SettleRowsRowwise(rows, lines);
    IncrementFirstRowwise(restored, lines);
    forall i | 0 <= i < |rows|
      ensures SettleRowsIncrementFirst(restored, lines)[i] == Restore(w'.journal)(w'.tables.charges[i])
    {
      assert rows[i] in rows;
      RowsAgree(rows[i], rows, w.journal, entry, t.invoices);
    }
    assert SettleRowsIncrementFirst(restored, lines) == Restored(w').tables.charges;
  }

  /** A step that adds lines, or none, restores to the same step. */
  lemma AddedRowsAgree(w: World, journal': seq<Entry>, owner: string, forInvoice: Option<string>, lines: seq<NewLine>)
    requires KeysOk(w) && RowsOk(w) && FreshIds(w.tables.charges, lines) && SameApplied(w.journal, journal')
    ensures var added := Map(RowFrom(owner, forInvoice), lines);
      Map(Restore(journal'), w.tables.charges + added) == Map(Restore(w.journal), w.tables.charges) + added
  {
  }

  lemma {:induction false} StepsAgree(w: World, e: Event)
    requires Inv(w)
    ensures StepReordered(Restored(w), e) == Restored(Step(w, e))
  {
    hide RowsOk, AccountsOk, InvoicesOk, AppliedOnce, AllocationFor, SettleRowsIncrementFirst, AllocateTables;
    SameGuards(w, e);
    if Accepts(w.tables, e) {
      match e
      case AllocateForPayment(p, strategy) => AllocationsAgree(w, p, strategy);
      case CreateWithLines(a, inv, _, _, lines, _) =>
        PlainEntryAppliesNothing(w.journal, ChargedUnposted(a, SumOf(lines, NewLineAmount)));
        AddedRowsAgree(w, Step(w, e).journal, a, Some(inv), lines);
      case CreateCharge(a, inv, line) =>
        PlainEntryAppliesNothing(w.journal, LegacyCharged(a, line.amount));
        AddedRowsAgree(w, Step(w, e).journal, a, inv, [line]);
      case CreatePayment(p, a, amount, _, inv) =>
        PlainEntryAppliesNothing(w.journal, LegacyPaid(a, amount, inv));
        assert Map(Restore(Step(w, e).journal), w.tables.charges) == Map(Restore(w.journal), w.tables.charges);
      case _ =>
    }
  }

  /** The two orders run in step: they accept the same events, make the same allocations and differ in
      nothing but the paid amounts of closed lines. */
  lemma {:induction false} RunsAgree(w: World, events: seq<Event>)
    requires Inv(w)
    ensures RunReordered(Restored(w), events) == Restored(Run(w, events))
    decreases |events|
  {
    if events == [] {
    } else {
      StepsAgree(w, events[0]);
      StepKeepsInvariant(w, events[0]);
      RunsAgree(Step(w, events[0]), events[1..]);
    }
  }

  // ---------------------------------------------------------------- the books under that order

  function UnpaidOn(a: string): ChargeRow -> int {
    (r: ChargeRow) => if r.accountId == a then r.amount - r.paidAmount else 0
  }

  /** An open line has not been paid in full; a line an allocation closed is PAID and shows its amount. */
  ghost predicate LineBalances(r: ChargeRow, journal: seq<Entry>) {
    && r.paidAmount == Applied(journal, r.id) >= 0
    && (OpenStatus(r.status) && r.paidAmount > 0 ==> r.paidAmount < r.amount)
    && (!OpenStatus(r.status) && r.paidAmount > 0 ==> r.status == PAID && r.paidAmount == r.amount)
  }

  ghost predicate BooksBalance(w: World) {
    var t := w.tables;
    && (forall r :: r in t.charges ==> LineBalances(r, w.journal))
    && (forall a :: a in t.accounts ==> t.accounts[a].balance == SumOf(t.charges, UnpaidOn(a)) - Credit(w.journal, a))
    && (forall inv :: inv in t.invoices ==>
          t.invoices[inv].paidAmount == SumOf(t.charges, ShownTowards(inv)) + Direct(w.journal, inv))
    && AppliedOnce(w)
  }

  lemma {:induction false} RestoredBooksBalance(w: World)
    requires Inv(w)
    ensures BooksBalance(Restored(w))
  {
    var t, rows, restored := w.tables, w.tables.charges, Restored(w).tables.charges;
    forall r | r in restored ensures LineBalances(r, w.journal) {
      var i :| 0 <= i < |restored| && restored[i] == r;
      assert rows[i] in rows && RowOk(rows[i], w.journal);
    }
    forall a | a in t.accounts ensures t.accounts[a].balance == SumOf(restored, UnpaidOn(a)) - Credit(w.journal, a) {
      assert AccountOk(t.accounts[a], a, rows, w.journal);
      SumOfEqual(restored, rows, UnpaidOn(a), OwedBy(a, w.journal));
    }
    forall inv | inv in t.invoices
      ensures t.invoices[inv].paidAmount == SumOf(restored, ShownTowards(inv)) + Direct(w.journal, inv)
    {
      assert InvoiceOk(t.invoices[inv], inv, rows, w.journal);
      SumOfEqual(restored, rows, ShownTowards(inv), AppliedTowards(inv, w.journal));
    }
  }

  /** Under that order, after every run: each balance is what the lines show unpaid less the credit on
      the account, each invoice is paid what its lines show, and lines closed by payment show it. */
  lemma {:induction false} EveryReorderedRunBalances(events: seq<Event>)
    ensures BooksBalance(RunReordered(EMPTY, events))
    ensures RunReordered(EMPTY, events) == Restored(Run(EMPTY, events))
  {
    assert Restored(EMPTY) == EMPTY;
    RunsAgree(EMPTY, events);
    RunKeepsInvariant(EMPTY, events);
    RestoredBooksBalance(Run(EMPTY, events));
  }

  lemma {:induction false} OpenRowsUnrestored(w: World)
    requires Inv(w)
    ensures Restored(w) == w <==>
      forall r :: r in w.tables.charges && !OpenStatus(r.status) ==> Applied(w.journal, r.id) == 0
  {
    var rows, restored := w.tables.charges, Restored(w).tables.charges;
    forall i | 0 <= i < |rows|
      ensures restored[i] == rows[i] <==> (OpenStatus(rows[i].status) || Applied(w.journal, rows[i].id) == 0)
    {
      assert rows[i] in rows && RowOk(rows[i], w.journal);
    }
  }

  /** The code's own books balance line by line exactly when no payment has closed a line. */
  lemma {:induction false} CodeBooksBalanceIff(w: World)
    requires Inv(w)
    ensures BooksBalance(w) <==>
      forall r :: r in w.tables.charges && !OpenStatus(r.status) ==> Applied(w.journal, r.id) == 0
  {
    OpenRowsUnrestored(w);
    RestoredBooksBalance(w);
    if BooksBalance(w) {
      var rows, restored := w.tables.charges, Restored(w).tables.charges;
      forall i | 0 <= i < |rows| ensures restored[i] == rows[i] { assert rows[i] in rows; }
      assert restored == rows;
    }
  }
}
