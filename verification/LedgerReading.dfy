/** What the stored tables mean to a payment: which rows it reads, in which order it settles them, and
    how new rows and changed invoices appear to the next one. Statuses, dates and amounts are spelled out
    here on the rows themselves. */
module LedgerReading {
  import opened Prelude
  import opened Sorting
  import opened PaymentAllocation
  import opened ProportionalAllocation
  import opened LedgerTables
  import opened LedgerInvariant
  import opened LedgerRuns

  // ---------------------------------------------------------------- which rows are read

  /** A payment into the account may settle the row. */
  predicate Payable(r: ChargeRow, a: string, invoices: map<string, InvoiceRow>) {
    && r.accountId == a && (r.status == PENDING || r.status == INVOICED)
    && (r.invoiceId == None
        || (r.invoiceId.value in invoices && invoices[r.invoiceId.value].status != CANCELLED))
  }

  /** The row as allocation sees it. */
  ghost predicate Shows(c: Charge, r: ChargeRow) {
    c == Charge(r.id, r.invoiceId, r.amount, r.paidAmount, r.dueDate, Some(r.createdAt))
  }

  /** The read returns every payable row of the account, each once, and nothing else. */
  lemma {:induction false} ReadsThePayableRows(t: Tables, a: string)
    requires DistinctRows(t.charges)
    ensures DistinctIds(FindOpenForAccount(t, a))
    ensures forall r :: r in t.charges && Payable(r, a, t.invoices) ==>
              exists c :: c in FindOpenForAccount(t, a) && Shows(c, r)
    ensures forall c :: c in FindOpenForAccount(t, a) ==>
              exists r :: r in t.charges && Payable(r, a, t.invoices) && Shows(c, r)
  {
    OpenChargesAreOpenRows(t, a);
    forall r | r in t.charges && Payable(r, a, t.invoices)
      ensures exists c :: c in FindOpenForAccount(t, a) && Shows(c, r)
    {
      assert Allocatable(r, a, t.invoices) && Shows(AsCharge(r), r);
    }
    forall c | c in FindOpenForAccount(t, a)
      ensures exists r :: r in t.charges && Payable(r, a, t.invoices) && Shows(c, r)
    {
      var r :| r in t.charges && Allocatable(r, a, t.invoices) && c == AsCharge(r);
      assert Payable(r, a, t.invoices) && Shows(c, r);
    }
  }

  /** It returns them by due date, rows without one last, and then by creation date. */
  lemma {:induction false} ReadsInDueOrder(t: Tables, a: string, i: nat, j: nat)
    requires i < j < |FindOpenForAccount(t, a)|
    ensures var c, d := FindOpenForAccount(t, a)[i], FindOpenForAccount(t, a)[j];
      NoLater(c.dueDate, d.dueDate) && (c.dueDate == d.dueDate ==> NoLater(c.createdAt, d.createdAt))
  {
    assert TotalPreorder(ReadLeq);
    SortSorts(ReadLeq, OpenRows(t.charges, a, t.invoices));
    assert ReadLeq(FindOpenForAccount(t, a)[i], FindOpenForAccount(t, a)[j]);
  }

  // ---------------------------------------------------------------- what a payment settles

  /** What a payable row still shows as owed; a row of a negative amount owes nothing. */
  function StillOwed(a: string, invoices: map<string, InvoiceRow>): ChargeRow -> int {
    (r: ChargeRow) => if Payable(r, a, invoices) then Max(0, r.amount - r.paidAmount) else 0
  }

  lemma {:induction false} OpenRowsOwe(rows: seq<ChargeRow>, a: string, invoices: map<string, InvoiceRow>)
    requires forall r :: r in rows && Payable(r, a, invoices) ==> r.paidAmount >= 0
    ensures TotalOutstanding(OpenRows(rows, a, invoices)) == SumOf(rows, StillOwed(a, invoices))
  {
    hide OutstandingFor;
    if rows == [] {
    } else {
      var c, rest := AsCharge(rows[0]), OpenRows(rows[1..], a, invoices);
      OpenRowsOwe(rows[1..], a, invoices);
      OutstandingMeans(c);
      assert OpenRows(rows, a, invoices) == if Payable(rows[0], a, invoices) then [c] + rest else rest;
      hide OpenRows, Payable;
      assert ([c] + rest)[1..] == rest;
    }
  }

  /** What is read as outstanding is what the payable rows show as owed. */
  lemma {:induction false} ReadsWhatIsOwed(w: World, a: string)
    requires Inv(w)
    ensures TotalOutstanding(FindOpenForAccount(w.tables, a))
         == SumOf(w.tables.charges, StillOwed(a, w.tables.invoices))
  {
    var open := OpenRows(w.tables.charges, a, w.tables.invoices);
    forall r | r in w.tables.charges && Payable(r, a, w.tables.invoices) ensures r.paidAmount >= 0 {
      assert RowOk(r, w.journal);
    }
    OpenRowsOwe(w.tables.charges, a, w.tables.invoices);
    SortPermutes(ReadLeq, open);
    SumOfPermutation(open, FindOpenForAccount(w.tables, a), OutstandingFor);
  }

  /** A payment of at least the whole debt flips the line of every charge that owes anything. */
  lemma {:induction false} CoveringPaymentFlips(strategy: Strategy, payment: int, charges: seq<Charge>, c: Charge)
    requires c in charges && IsOpen(c) && payment >= TotalOutstanding(charges)
    ensures c.id in PlannedIds(Allocation(strategy, payment, charges))
    ensures TotalAllocated(Allocation(strategy, payment, charges)) == TotalOutstanding(charges)
  {
    var lines, pool := Allocation(strategy, payment, charges), NonNegative(payment);
    TotalOutstandingNonNegative(charges);
    match strategy
    case Fifo =>
      var sorted := FifoOrder(charges);
      FifoOrderIsSorted(charges);
      SumOfPermutation(charges, sorted, OutstandingFor);
      FifoConserves(sorted, pool);
      assert c in multiset(sorted);
      OwingKeepsExactlyTheOwing(sorted, c);
      var k :| 0 <= k < |Owing(sorted)| && Owing(sorted)[k] == c;
      FifoWalkIsWaterfall(sorted, pool);
      EnoughForAll(sorted, k);
      assert lines[k] in lines && Flips(lines[k]);
    case Proportional =>
      var k :| 0 <= k < |charges| && charges[k] == c;
      OwesNothing(charges, k);
      WholeDebtHasNoDrift(pool, charges);
      ExactShares(charges, TotalOutstanding(charges));
      ShareOfWhole(OutstandingFor(c), TotalOutstanding(charges));
      assert lines[k] == ShareLine(c, TotalOutstanding(charges), TotalOutstanding(charges));
      assert lines[k] in lines && Flips(lines[k]);
  }

  lemma {:induction false} OwingOwesAll(sorted: seq<Charge>)
    ensures TotalOutstanding(Owing(sorted)) == TotalOutstanding(sorted)
  {
    if sorted == [] {
    } else {
      var c, rest := sorted[0], Owing(sorted[1..]);
      OwingOwesAll(sorted[1..]);
      assert ([c] + rest)[1..] == rest && [] + rest == rest;
    }
  }

  lemma {:induction false} EnoughForAll(sorted: seq<Charge>, k: nat)
    requires k < |Owing(sorted)|
    ensures OwedBefore(Owing(sorted), k) + OutstandingFor(Owing(sorted)[k]) <= TotalOutstanding(sorted)
  {
    var owing := Owing(sorted);
    OwingOwesAll(sorted);
    assert owing == owing[..k] + ([owing[k]] + owing[k + 1..]);
    SumOfAppend(owing[..k], [owing[k]] + owing[k + 1..], OutstandingFor);
    TotalOutstandingNonNegative(owing[k + 1..]);
  }

  /** A payment of at least what the account's payable rows show as owed, under either strategy, closes
      every such row that owed anything, changes no other row, and credits the account with the rest. */
  lemma {:induction false} CoveringPaymentSettlesAll(w: World, p: string, strategy: Strategy)
    requires Inv(w) && Accepts(w.tables, AllocateForPayment(p, strategy))
    requires var t, a := w.tables, w.tables.payments[p].accountId;
      t.payments[p].amount >= SumOf(t.charges, StillOwed(a, t.invoices))
    ensures var t, a, w' := w.tables, w.tables.payments[p].accountId, Step(w, AllocateForPayment(p, strategy));
      && |w'.tables.charges| == |t.charges|
      && (forall i :: 0 <= i < |t.charges| ==>
            w'.tables.charges[i] == if StillOwed(a, t.invoices)(t.charges[i]) > 0
                                    then t.charges[i].(status := PAID) else t.charges[i])
      && Credit(w'.journal, a)
         == Credit(w.journal, a) + Max(0, t.payments[p].amount) - SumOf(t.charges, StillOwed(a, t.invoices))
  {
    hide Credit, SettleRows, SettledRow, FindOpenForAccount, Allocation, StillOwed, SumOf, LinesOfRows, TotalAllocated,
      TotalOutstanding, RowsOk, AccountsOk, InvoicesOk, AppliedOnce;
    var t, a, lines := w.tables, w.tables.payments[p].accountId, AllocationFor(w.tables, p, strategy);
    var w' := Step(w, AllocateForPayment(p, strategy));
    ReadsWhatIsOwed(w, a);
    AllocationOfRows(t, p, strategy, lines);
    LinesNonNegative(lines, t.charges, a, t.invoices);
    SettleRowsRowwise(t.charges, lines);
    JournalGrows(w.journal, Allocated(p, a, t.payments[p].amount, lines), a, "x");
    CoveringPaymentHandsOutTheDebt(strategy, t.payments[p].amount, FindOpenForAccount(t, a));
    forall i | 0 <= i < |t.charges|
      ensures SettledRow(t.charges[i], lines)
           == if StillOwed(a, t.invoices)(t.charges[i]) > 0 then t.charges[i].(status := PAID) else t.charges[i]
    {
      CoveringPaymentSettlesRow(w, p, strategy, i);
    }
  }

  lemma {:induction false} CoveringPaymentHandsOutTheDebt(strategy: Strategy, payment: int, charges: seq<Charge>)
    requires payment >= TotalOutstanding(charges)
    ensures TotalAllocated(Allocation(strategy, payment, charges)) == TotalOutstanding(charges)
  {
    TotalOutstandingNonNegative(charges);
    if TotalOutstanding(charges) > 0 {
      var k := OneWhoOwes(charges);
      CoveringPaymentFlips(strategy, payment, charges, charges[k]);
    } else {
      match strategy
      case Fifo =>
        FifoOrderIsSorted(charges);
        SumOfPermutation(charges, FifoOrder(charges), OutstandingFor);
        FifoConserves(FifoOrder(charges), NonNegative(payment));
      case Proportional => ProportionalOfNothing(NonNegative(payment), charges);
    }
  }

  lemma {:induction false} CoveringPaymentSettlesRow(w: World, p: string, strategy: Strategy, i: nat)
    requires Inv(w) && Accepts(w.tables, AllocateForPayment(p, strategy)) && i < |w.tables.charges|
    requires var t, a := w.tables, w.tables.payments[p].accountId;
      t.payments[p].amount >= TotalOutstanding(FindOpenForAccount(t, a))
    ensures var t, a := w.tables, w.tables.payments[p].accountId;
      SettledRow(t.charges[i], AllocationFor(t, p, strategy))
      == if StillOwed(a, t.invoices)(t.charges[i]) > 0 then t.charges[i].(status := PAID) else t.charges[i]
  {
    hide FindOpenForAccount, Allocation;
    var t, a, r := w.tables, w.tables.payments[p].accountId, w.tables.charges[i];
    var lines := AllocationFor(t, p, strategy);
    AllocationOfRows(t, p, strategy, lines);
    OpenChargesAreOpenRows(t, a);
    assert r in t.charges && RowOk(r, w.journal);
    if Payable(r, a, t.invoices) {
      OutstandingMeans(AsCharge(r));
      assert Allocatable(r, a, t.invoices);
      if IsOpen(AsCharge(r)) {
        CoveringPaymentFlips(strategy, t.payments[p].amount, FindOpenForAccount(t, a), AsCharge(r));
      } else {
        OweNothingGetNothing(t.charges, lines, a, t.invoices, r);
      }
    } else {
      OweNothingGetNothing(t.charges, lines, a, t.invoices, r);
    }
  }

  lemma {:induction false} OweNothingGetNothing(rows: seq<ChargeRow>, lines: seq<Line>, a: string,
                                                invoices: map<string, InvoiceRow>, r: ChargeRow)
    requires DistinctRows(rows) && LinesOfRows(lines, rows, a, invoices) && r in rows
    requires !Allocatable(r, a, invoices) || !IsOpen(AsCharge(r))
    ensures AllocatedTo(lines, r.id) == 0 && r.id !in PlannedIds(lines)
  {
    forall l | l in lines && l.chargeLineId == r.id ensures l.amount == 0 {
      assert HasRow(l, rows, a, invoices);
      var k :| 0 <= k < |rows| && LineOf(l, rows[k], a, invoices);
      assert rows[k] == r;
    }
    if l :| l in lines && l.chargeLineId == r.id {
      var i :| 0 <= i < |lines| && lines[i] == l;
      AllocatedToLine(lines, i);
    } else {
      AllocatedToStranger(lines, r.id);
    }
  }

  // ---------------------------------------------------------------- which debts come first

  /** The order of settlement on the rows: due date, rows without one last, then creation date, then id. */
  ghost predicate DueBefore(r: ChargeRow, s: ChargeRow) {
    && NoLater(r.dueDate, s.dueDate) && (r.dueDate == s.dueDate ==> r.createdAt <= s.createdAt)
    && (r.dueDate == s.dueDate && r.createdAt == s.createdAt ==> TextLeq(r.id, s.id))
  }

  /** A FIFO payment brings money to a row only if it closes every payable row due before it that still
      owed anything. */
  lemma {:induction false} EarlierRowsCloseFirst(w: World, p: string, i: nat, j: nat)
    requires Inv(w) && Accepts(w.tables, AllocateForPayment(p, Fifo))
    requires i < |w.tables.charges| && j < |w.tables.charges| && i != j
    requires var t, a := w.tables, w.tables.payments[p].accountId;
      DueBefore(t.charges[i], t.charges[j]) && StillOwed(a, t.invoices)(t.charges[i]) > 0
    ensures var t, w' := w.tables, Step(w, AllocateForPayment(p, Fifo));
      && |w'.tables.charges| == |t.charges|
      && (Applied(w'.journal, t.charges[j].id) > Applied(w.journal, t.charges[j].id) ==>
            w'.tables.charges[i].status == PAID)
  {
    hide Applied, SettleRows, FindOpenForAccount, FifoWalk, FifoOrder, OutstandingFor, LinesOfRows, Flips,
      AccountsOk, InvoicesOk, AppliedOnce, AllocatedTo;
    var t, a, r, s := w.tables, w.tables.payments[p].accountId, w.tables.charges[i], w.tables.charges[j];
    var lines, open := AllocationFor(t, p, Fifo), FindOpenForAccount(t, a);
    AllocationOfRows(t, p, Fifo, lines);
    OpenChargesAreOpenRows(t, a);
    LinesNonNegative(lines, t.charges, a, t.invoices);
    SettleRowsRowwise(t.charges, lines);
    AppliedGrows(w.journal, Allocated(p, a, t.payments[p].amount, lines), s.id);
    assert r in t.charges && s in t.charges && RowOk(r, w.journal);
    if AllocatedTo(lines, s.id) > 0 {
      if !Allocatable(s, a, t.invoices) { OweNothingGetNothing(t.charges, lines, a, t.invoices, s); }
      assert Allocatable(r, a, t.invoices) && AsCharge(r) in open && AsCharge(s) in open;
      EarlierDebtsFirst(open, NonNegative(t.payments[p].amount), AsCharge(r), AsCharge(s));
      OutstandingMeans(AsCharge(r));
      MetRowIsPlanned(t.charges, lines, a, t.invoices, r);
    }
  }

  lemma {:induction false} MetRowIsPlanned(rows: seq<ChargeRow>, lines: seq<Line>, a: string,
                                           invoices: map<string, InvoiceRow>, r: ChargeRow)
    requires DistinctRows(rows) && LinesOfRows(lines, rows, a, invoices) && r in rows
    requires AllocatedTo(lines, r.id) == OutstandingFor(AsCharge(r)) > 0
    ensures r.id in PlannedIds(lines)
  {
    if forall l :: l in lines ==> l.chargeLineId != r.id { AllocatedToStranger(lines, r.id); }
    var l :| l in lines && l.chargeLineId == r.id;
    var i :| 0 <= i < |lines| && lines[i] == l;
    AllocatedToLine(lines, i);
    assert HasRow(l, rows, a, invoices);
    var k :| 0 <= k < |rows| && LineOf(l, rows[k], a, invoices);
    assert rows[k] == r && Flips(l);
  }

  // ---------------------------------------------------------------- how new rows and statuses read

  /** The charge that a new line on an account reads back as. */
  ghost predicate ShowsNew(c: Charge, l: NewLine, forInvoice: Option<string>) {
    (l.status == PENDING || l.status == INVOICED)
    && c == Charge(l.id, forInvoice, l.amount, 0, l.dueDate, Some(l.createdAt))
  }

  /** After an invoice is created the account's next read returns what it returned before and each of the
      lines that is pending or invoiced, with nothing paid, unless the invoice is created cancelled; other
      accounts read as before. */
  lemma {:induction false} CreatedLinesReadBack(w: World, e: Event, a: string, c: Charge)
    requires Inv(w) && Accepts(w.tables, e) && e.CreateWithLines?
    ensures Step(w, e).tables.invoices
         == w.tables.invoices[e.invoiceId := InvoiceRow(e.accountId, e.totalAmount, 0, e.status)]
    ensures c in FindOpenForAccount(Step(w, e).tables, a)
       <==> c in FindOpenForAccount(w.tables, a)
            || (a == e.accountId && e.status != CANCELLED
                && exists l :: l in e.lines && ShowsNew(c, l, Some(e.invoiceId)))
  {
    var t, t' := w.tables, Step(w, e).tables;
    StepKeepsInvariant(w, e);
    hide FindOpenForAccount, RowsOk, AccountsOk, InvoicesOk, AppliedOnce, RowOk;
    OpenChargesAreOpenRows(t, a);
    OpenChargesAreOpenRows(t', a);
    NewRowsAre(t.charges, e.accountId, Some(e.invoiceId), e.lines);
    forall r | r in t.charges ensures Allocatable(r, a, t'.invoices) == Allocatable(r, a, t.invoices) {}
    forall l | l in e.lines
      ensures var r := RowFrom(e.accountId, Some(e.invoiceId))(l);
        r in t'.charges
        && (Allocatable(r, a, t'.invoices) && c == AsCharge(r)
            <==> a == e.accountId && e.status != CANCELLED && ShowsNew(c, l, Some(e.invoiceId)))
    {}
  }

  lemma NewRowsAre(rows: seq<ChargeRow>, owner: string, forInvoice: Option<string>, lines: seq<NewLine>)
    ensures forall r :: r in rows + Map(RowFrom(owner, forInvoice), lines)
              <==> r in rows || exists l :: l in lines && r == RowFrom(owner, forInvoice)(l)
  {
  }

  /** A legacy charge reads back likewise, on the invoice it names if that is live. */
  lemma {:induction false} CreatedChargeReadsBack(w: World, e: Event, a: string, c: Charge)
    requires Inv(w) && Accepts(w.tables, e) && e.CreateCharge?
    ensures c in FindOpenForAccount(Step(w, e).tables, a)
       <==> c in FindOpenForAccount(w.tables, a)
            || (a == e.accountId && ShowsNew(c, e.line, e.forInvoice)
                && (e.forInvoice.Some? ==> w.tables.invoices[e.forInvoice.value].status != CANCELLED))
  {
    var t, t' := w.tables, Step(w, e).tables;
    StepKeepsInvariant(w, e);
    hide FindOpenForAccount, RowsOk, AccountsOk, InvoicesOk, AppliedOnce, RowOk;
    OpenChargesAreOpenRows(t, a);
    OpenChargesAreOpenRows(t', a);
    NewRowsAre(t.charges, e.accountId, e.forInvoice, [e.line]);
    var r := RowFrom(e.accountId, e.forInvoice)(e.line);
    assert e.line in [e.line] && r in t'.charges;
  }

  /** An invoice whose status is set hides its lines from payments while it is cancelled and shows them
      otherwise; every other line reads as before. */
  lemma {:induction false} CancelledInvoicesHide(w: World, inv: string, status: InvoiceStatus, a: string, c: Charge)
    requires Inv(w) && inv in w.tables.invoices
    ensures var t' := Step(w, SetInvoiceStatus(inv, status)).tables;
      && t'.invoices == w.tables.invoices[inv := w.tables.invoices[inv].(status := status)]
      && (c in FindOpenForAccount(t', a) <==>
            if c.invoiceId == Some(inv)
            then status != CANCELLED && exists r :: r in w.tables.charges && r.accountId == a && Shows(c, r)
                                                    && (r.status == PENDING || r.status == INVOICED)
            else c in FindOpenForAccount(w.tables, a))
  {
    var t, t' := w.tables, Step(w, SetInvoiceStatus(inv, status)).tables;
    OpenChargesAreOpenRows(t, a);
    OpenChargesAreOpenRows(t', a);
    forall r | r in t.charges && r.invoiceId != Some(inv)
      ensures Allocatable(r, a, t'.invoices) == Allocatable(r, a, t.invoices)
    {}
    forall r | r in t.charges && r.invoiceId == Some(inv)
      ensures Shows(c, r) <==> c == AsCharge(r)
      ensures Allocatable(r, a, t'.invoices)
         <==> r.accountId == a && status != CANCELLED && (r.status == PENDING || r.status == INVOICED)
    {}
  }
}
