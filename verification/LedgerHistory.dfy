/** Whole runs read back as their events: what each account's figures add up to, and which event every
    stored row, invoice and payment came from. */
module LedgerHistory {
  import opened Prelude
  import opened PaymentAllocation
  import opened ProportionalAllocation
  import opened LedgerTables
  import opened LedgerInvariant
  import opened LedgerRuns

  // ---------------------------------------------------------------- what the account figures add up to

  /** What one accepted event posts to an account: its effect on the balance, and the debits and credits
      it adds. Only invoices and allocations touch debits and credits; the legacy operations do not. */
  datatype Posting = Posting(balance: int, debits: int, credits: int)

  function PostingOf(t: Tables, e: Event, a: string): Posting {
    if !Accepts(t, e) then Posting(0, 0, 0) else
    match e
    case CreateWithLines(owner, _, _, _, lines, true) =>
      var total := SumOf(lines, NewLineAmount);
      if owner == a then Posting(total, Max(0, total), Max(0, -total)) else Posting(0, 0, 0)
    case CreateCharge(owner, _, line) => if owner == a then Posting(line.amount, 0, 0) else Posting(0, 0, 0)
    case CreatePayment(_, owner, amount, _, _) => if owner == a then Posting(-amount, 0, 0) else Posting(0, 0, 0)
    case AllocateForPayment(p, _) =>
      var amount := Max(0, t.payments[p].amount);
      if t.payments[p].accountId == a then Posting(-amount, 0, amount) else Posting(0, 0, 0)
    case _ => Posting(0, 0, 0)
  }

  function Postings(w: World, events: seq<Event>, a: string): Posting
    decreases |events|
  {
    if events == [] then Posting(0, 0, 0)
    else
      var first, rest := PostingOf(w.tables, events[0], a), Postings(Step(w, events[0]), events[1..], a);
      Posting(first.balance + rest.balance, first.debits + rest.debits, first.credits + rest.credits)
  }

  /** The figures of an account; one not opened yet has none. */
  function Figures(t: Tables, a: string): Posting {
    if a in t.accounts
    then Posting(t.accounts[a].balance, t.accounts[a].totalDebits, t.accounts[a].totalCredits)
    else Posting(0, 0, 0)
  }

  /** One step posts exactly that; in particular neither debits nor credits ever fall. */
  lemma StepPosts(w: World, e: Event, a: string)
    ensures var before, after, posted := Figures(w.tables, a), Figures(Step(w, e).tables, a),
                                         PostingOf(w.tables, e, a);
      && after == Posting(before.balance + posted.balance, before.debits + posted.debits,
                          before.credits + posted.credits)
      && after.debits >= before.debits && after.credits >= before.credits
  {
  }

  /** Over a run an account's balance, debits and credits move by the sums of what was posted. */
  lemma {:induction false} FiguresAreSums(w: World, events: seq<Event>, a: string)
    ensures var before, after, posted := Figures(w.tables, a), Figures(Run(w, events).tables, a),
                                         Postings(w, events, a);
      && after == Posting(before.balance + posted.balance, before.debits + posted.debits,
                          before.credits + posted.credits)
      && after.debits >= before.debits && after.credits >= before.credits
    decreases |events|
  {
    hide Step, PostingOf, Figures;
    if events == [] {
    } else {
      StepPosts(w, events[0], a);
      FiguresAreSums(Step(w, events[0]), events[1..], a);
    }
  }

  // ---------------------------------------------------------------- what invoices are paid

  function PaidOn(t: Tables, inv: string): int { if inv in t.invoices then t.invoices[inv].paidAmount else 0 }

  /** What one accepted event pays towards an invoice: a legacy payment booked on it its amount, an allocation
      what its lines for that invoice receive. */
  function PaidBy(t: Tables, e: Event, inv: string): int {
    if !Accepts(t, e) then 0
    else if e.CreatePayment? && e.forInvoice == Some(inv) then e.amount
    else if e.AllocateForPayment? && inv in t.invoices then ImpactOn(AllocationFor(t, e.paymentId, e.strategy), inv)
    else 0
  }

  function PaidByAll(w: World, events: seq<Event>, inv: string): int
    decreases |events|
  {
    if events == [] then 0 else PaidBy(w.tables, events[0], inv) + PaidByAll(Step(w, events[0]), events[1..], inv)
  }

  lemma {:induction false} StepPays(w: World, e: Event, inv: string)
    ensures PaidOn(Step(w, e).tables, inv) == PaidOn(w.tables, inv) + PaidBy(w.tables, e, inv)
  {
    hide AllocationFor, SettleRows;
    if e.AllocateForPayment? && Accepts(w.tables, e) {
      ImpactNonNegative(AllocationFor(w.tables, e.paymentId, e.strategy), inv);
    }
  }

  /** Over a run an invoice's paid amount moves by the sum of what was paid towards it. */
  lemma {:induction false} PaidAmountsAreSums(w: World, events: seq<Event>, inv: string)
    ensures PaidOn(Run(w, events).tables, inv) == PaidOn(w.tables, inv) + PaidByAll(w, events, inv)
    decreases |events|
  {
    hide Step, PaidBy, PaidOn;
    if events == [] {
    } else {
      StepPays(w, events[0], inv);
      PaidAmountsAreSums(Step(w, events[0]), events[1..], inv);
    }
  }

  // ---------------------------------------------------------------- where stored records come from

  /** The row is the line as it was given, but for its paid amount and for being PAID once it was open. */
  ghost predicate IsLine(r: ChargeRow, l: NewLine) {
    && r.id == l.id && r.amount == l.amount && r.dueDate == l.dueDate && r.createdAt == l.createdAt
    && (r.status == l.status || (r.status == PAID && (l.status == PENDING || l.status == INVOICED)))
  }

  ghost predicate RowFromEvent(r: ChargeRow, e: Event) {
    match e
    case CreateWithLines(a, inv, _, _, lines, _) =>
      r.accountId == a && r.invoiceId == Some(inv) && exists l :: l in lines && IsLine(r, l)
    case CreateCharge(a, inv, line) => r.accountId == a && r.invoiceId == inv && IsLine(r, line)
    case _ => false
  }

  ghost predicate InvoiceFromEvent(id: string, row: InvoiceRow, e: Event) {
    e.CreateWithLines? && e.invoiceId == id && e.accountId == row.accountId && e.totalAmount == row.totalAmount
  }

  ghost predicate PaymentFromEvent(id: string, row: PaymentRow, e: Event) {
    match e
    case AddPayment(p, a, amount, completed) =>
      p == id && row.accountId == a && row.amount == amount && row.completed == completed
    case CreatePayment(p, a, amount, completed, _) =>
      p == id && row.accountId == a && row.amount == amount && row.completed == completed
    case _ => false
  }

  ghost predicate RowComesFrom(r: ChargeRow, events: seq<Event>) { exists e :: e in events && RowFromEvent(r, e) }

  ghost predicate InvoiceComesFrom(id: string, row: InvoiceRow, events: seq<Event>) {
    exists e :: e in events && InvoiceFromEvent(id, row, e)
  }

  ghost predicate PaymentComesFrom(id: string, row: PaymentRow, events: seq<Event>) {
    && (exists e :: e in events && PaymentFromEvent(id, row, e))
    && (row.stamped ==> exists e :: e in events && e.AllocateForPayment? && e.paymentId == id)
  }

  /** Every record was created by one of the events with the fields that event gave it, and a payment is
      stamped only if one of them allocated it. */
  ghost predicate FromEvents(t: Tables, events: seq<Event>) {
    && (forall r :: r in t.charges ==> RowComesFrom(r, events))
    && (forall id :: id in t.invoices ==> InvoiceComesFrom(id, t.invoices[id], events))
    && (forall id :: id in t.payments ==> PaymentComesFrom(id, t.payments[id], events))
  }

  /** A row keeps its origin when its paid amount changes or it is paid. */
  lemma {:induction false} PaidRowComesFrom(r: ChargeRow, r': ChargeRow, events: seq<Event>)
    requires RowComesFrom(r, events) && r' == r.(paidAmount := r'.paidAmount, status := r'.status)
    requires r'.status == r.status || (r'.status == PAID && (r.status == PENDING || r.status == INVOICED))
    ensures RowComesFrom(r', events)
  {
    var e :| e in events && RowFromEvent(r, e);
    assert RowFromEvent(r', e) by {
      if e.CreateWithLines? {
        var l :| l in e.lines && IsLine(r, l);
        assert IsLine(r', l);
      }
    }
  }

  lemma {:induction false} SettledRowsComeFrom(rows: seq<ChargeRow>, lines: seq<Line>, events: seq<Event>)
    requires forall l :: l in lines ==> l.amount >= 0
    requires forall r :: r in rows ==> RowComesFrom(r, events)
    ensures forall r' :: r' in SettleRows(rows, lines) ==> RowComesFrom(r', events)
  {
    hide SettleRows, RowComesFrom, PlannedIds;
    SettleRowsRowwise(rows, lines);
    forall r' | r' in SettleRows(rows, lines) ensures RowComesFrom(r', events) {
      var i :| 0 <= i < |rows| && SettleRows(rows, lines)[i] == r';
      PaidRowComesFrom(rows[i], r', events);
    }
  }

  lemma {:induction false} NewRowsComeFrom(rows: seq<ChargeRow>, e: Event, events: seq<Event>)
    requires e in events && forall r :: r in rows ==> RowComesFrom(r, events)
    ensures e.CreateWithLines? ==>
      forall r :: r in rows + Map(RowFrom(e.accountId, Some(e.invoiceId)), e.lines) ==> RowComesFrom(r, events)
    ensures e.CreateCharge? ==>
      forall r :: r in rows + Map(RowFrom(e.accountId, e.forInvoice), [e.line]) ==> RowComesFrom(r, events)
  {
    if e.CreateWithLines? {
      var added := Map(RowFrom(e.accountId, Some(e.invoiceId)), e.lines);
      forall r | r in added ensures RowComesFrom(r, events) {
        var i :| 0 <= i < |added| && added[i] == r;
        assert e.lines[i] in e.lines && IsLine(r, e.lines[i]);
        assert RowFromEvent(r, e);
      }
    }
    if e.CreateCharge? {
      assert RowFromEvent(RowFrom(e.accountId, e.forInvoice)(e.line), e);
    }
  }

  lemma {:induction false} StepKeepsRowOrigins(w: World, e: Event, events: seq<Event>)
    requires Inv(w) && e in events && forall r :: r in w.tables.charges ==> RowComesFrom(r, events)
    ensures forall r :: r in Step(w, e).tables.charges ==> RowComesFrom(r, events)
  {
    hide RowComesFrom, AllocationFor, SettleRows, RowsOk, AccountsOk, InvoicesOk, AppliedOnce;
    if Accepts(w.tables, e) {
      NewRowsComeFrom(w.tables.charges, e, events);
      if e.AllocateForPayment? {
        var t, lines := w.tables, AllocationFor(w.tables, e.paymentId, e.strategy);
        AllocationOfRows(t, e.paymentId, e.strategy, lines);
        LinesNonNegative(lines, t.charges, t.payments[e.paymentId].accountId, t.invoices);
        SettledRowsComeFrom(t.charges, lines, events);
      }
    }
  }

  lemma {:induction false} StepKeepsInvoiceOrigins(w: World, e: Event, events: seq<Event>)
    requires e in events && FromEvents(w.tables, events)
    ensures forall id :: id in Step(w, e).tables.invoices ==>
              InvoiceComesFrom(id, Step(w, e).tables.invoices[id], events)
  {
    hide RowComesFrom, PaymentComesFrom, AllocationFor, SettleRows, ImpactOn;
    var t, t' := w.tables, Step(w, e).tables;
    forall id | id in t'.invoices ensures InvoiceComesFrom(id, t'.invoices[id], events) {
      if id in t.invoices {
        var x :| x in events && InvoiceFromEvent(id, t.invoices[id], x);
        assert InvoiceFromEvent(id, t'.invoices[id], x);
      } else {
        assert InvoiceFromEvent(id, t'.invoices[id], e);
      }
    }
  }

  lemma {:induction false} StepKeepsPaymentOrigins(w: World, e: Event, events: seq<Event>)
    requires e in events && FromEvents(w.tables, events)
    ensures forall id :: id in Step(w, e).tables.payments ==>
              PaymentComesFrom(id, Step(w, e).tables.payments[id], events)
  {
    hide RowComesFrom, InvoiceComesFrom, AllocationFor, SettleRows, CreditInvoices;
    var t, t' := w.tables, Step(w, e).tables;
    forall id | id in t'.payments ensures PaymentComesFrom(id, t'.payments[id], events) {
      if id in t.payments {
        var x :| x in events && PaymentFromEvent(id, t.payments[id], x);
        assert PaymentFromEvent(id, t'.payments[id], x);
      } else {
        assert PaymentFromEvent(id, t'.payments[id], e);
      }
    }
  }

  lemma {:induction false} RunKeepsOrigins(w: World, events: seq<Event>, all: seq<Event>)
    requires Inv(w) && FromEvents(w.tables, all) && forall e :: e in events ==> e in all
    ensures FromEvents(Run(w, events).tables, all)
    decreases |events|
  {
    hide Inv, Step, RowComesFrom, InvoiceComesFrom, PaymentComesFrom;
    if events == [] {
    } else {
      StepKeepsInvariant(w, events[0]);
      StepKeepsRowOrigins(w, events[0], all);
      StepKeepsInvoiceOrigins(w, events[0], all);
      StepKeepsPaymentOrigins(w, events[0], all);
      RunKeepsOrigins(Step(w, events[0]), events[1..], all);
    }
  }

  /** After every run from an empty ledger each record is traced to its event, and each account's balance,
      debits and credits are the sums of what the run posted to it. */
  lemma {:induction false} EveryRecordHasItsEvent(events: seq<Event>, a: string)
    ensures FromEvents(Run(EMPTY, events).tables, events)
    ensures Figures(Run(EMPTY, events).tables, a) == Postings(EMPTY, events, a)
  {
    RunKeepsInvariant(EMPTY, []);
    RunKeepsOrigins(EMPTY, events, events);
    FiguresAreSums(EMPTY, events, a);
  }
}
