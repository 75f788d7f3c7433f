/** The finance tables as one transaction after another leaves them: accounts, invoices, charge
    lines and payments, with the journal of what has been posted. Each function below is one
    transaction of the repositories (finance, invoice, chargeLine, payment) or of
    `payments.service::allocateForPayment`. */
module LedgerTables {
  import opened Prelude
  import opened Sorting
  import opened PaymentAllocation
  import opened ProportionalAllocation

  datatype ChargeStatus = PENDING | INVOICED | PAID | CREDITED | WRITTEN_OFF

  datatype InvoiceStatus = DRAFT | ISSUED | PARTIALLY_PAID | FULLY_PAID | OVERDUE | CANCELLED | VOIDED

  datatype Account = Account(balance: int, totalDebits: int, totalCredits: int)

  datatype ChargeRow = ChargeRow(
    id: string,
    accountId: string,
    invoiceId: Option<string>,
    amount: int,
    paidAmount: int,
    status: ChargeStatus,
    dueDate: Option<int>,
    createdAt: int)

  datatype InvoiceRow = InvoiceRow(accountId: string, totalAmount: int, paidAmount: int, status: InvoiceStatus)

  /** `stamped` stands for `allocatedAt IS NOT NULL`. */
  datatype PaymentRow = PaymentRow(accountId: string, amount: int, completed: bool, stamped: bool)

  datatype Tables = Tables(
    accounts: map<string, Account>,
    invoices: map<string, InvoiceRow>,
    charges: seq<ChargeRow>,
    payments: map<string, PaymentRow>)

  predicate OpenStatus(s: ChargeStatus) { s == PENDING || s == INVOICED }

  // ---------------------------------------------------------------- reading open charges

  function AsCharge(r: ChargeRow): Charge {
    Charge(r.id, r.invoiceId, r.amount, r.paidAmount, r.dueDate, Some(r.createdAt))
  }

  /** Open rows of the account whose invoice, if any, is not cancelled. */
  predicate Allocatable(r: ChargeRow, accountId: string, invoices: map<string, InvoiceRow>) {
    && r.accountId == accountId && OpenStatus(r.status)
    && (r.invoiceId.None?
        || (r.invoiceId.value in invoices && invoices[r.invoiceId.value].status != CANCELLED))
  }

  function OpenRows(rows: seq<ChargeRow>, accountId: string, invoices: map<string, InvoiceRow>): seq<Charge> {
    if rows == [] then []
    else (if Allocatable(rows[0], accountId, invoices) then [AsCharge(rows[0])] else [])
         + OpenRows(rows[1..], accountId, invoices)
  }

  /** `orderBy: [{ dueDate: 'asc' }, { createdAt: 'asc' }]`, missing dates last. */
  predicate ReadLeq(a: Charge, b: Charge) {
    var due := CompareInstant(a.dueDate, b.dueDate);
    due < 0 || (due == 0 && CompareInstant(a.createdAt, b.createdAt) <= 0)
  }

  function FindOpenForAccount(t: Tables, accountId: string): seq<Charge> {
    Sort(ReadLeq, OpenRows(t.charges, accountId, t.invoices))
  }

  // ---------------------------------------------------------------- guarded row updates

  function Flip(ids: set<string>): ChargeRow -> ChargeRow {
    (r: ChargeRow) => if r.id in ids && OpenStatus(r.status) then r.(status := PAID) else r
  }

  function MarkPaidBulk(rows: seq<ChargeRow>, ids: set<string>): seq<ChargeRow> { Map(Flip(ids), rows) }

  function Increment(id: string, pennies: int): ChargeRow -> ChargeRow {
    (r: ChargeRow) => if r.id == id && OpenStatus(r.status) then r.(paidAmount := r.paidAmount + pennies) else r
  }

  /** One guarded increment for each line that received anything. */
  function UpdatePartialPaidAmounts(rows: seq<ChargeRow>, lines: seq<Line>): seq<ChargeRow>
    decreases |lines|
  {
    if lines == [] then rows
    else
      UpdatePartialPaidAmounts(
        if lines[0].amount > 0 then Map(Increment(lines[0].chargeLineId, lines[0].amount), rows) else rows,
        lines[1..])
  }

  predicate Flips(l: Line) { l.fullyCovered && l.amount > 0 }

  function PlannedIds(lines: seq<Line>): set<string> { set l | l in lines && Flips(l) :: l.chargeLineId }

  /** The order of the service: flip the covered lines, then increment what is still open. */
  function SettleRows(rows: seq<ChargeRow>, lines: seq<Line>): seq<ChargeRow> {
    UpdatePartialPaidAmounts(MarkPaidBulk(rows, PlannedIds(lines)), lines)
  }

  /** The order its comments describe the outcome of: increment first, then flip. */
  function SettleRowsIncrementFirst(rows: seq<ChargeRow>, lines: seq<Line>): seq<ChargeRow> {
    MarkPaidBulk(UpdatePartialPaidAmounts(rows, lines), PlannedIds(lines))
  }

  function Promoted(row: InvoiceRow): InvoiceRow {
    if row.paidAmount >= row.totalAmount then row.(status := FULLY_PAID)
    else if row.paidAmount > 0 then row.(status := PARTIALLY_PAID)
    else row
  }

  function CreditInvoice(row: InvoiceRow, impact: int): InvoiceRow {
    if impact > 0 then Promoted(row.(paidAmount := row.paidAmount + impact)) else row
  }

  function CreditInvoices(invoices: map<string, InvoiceRow>, lines: seq<Line>): map<string, InvoiceRow> {
    map id | id in invoices :: CreditInvoice(invoices[id], ImpactOn(lines, id))
  }

  function RecordPayment(a: Account, amount: int): Account {
    if amount > 0 then a.(balance := a.balance - amount, totalCredits := a.totalCredits + amount) else a
  }

  // ---------------------------------------------------------------- the journal

  /** What has been posted so far, for stating invariants over runs; no table stores it. */
  datatype Entry =
    | Allocated(paymentId: string, accountId: string, amount: int, lines: seq<Line>)
    | LegacyPaid(accountId: string, amount: int, invoiceId: Option<string>)
    | LegacyCharged(accountId: string, amount: int)
    | ChargedUnposted(accountId: string, amount: int)

  function AppliedBy(id: string): Entry -> int {
    (e: Entry) => if e.Allocated? then AllocatedTo(e.lines, id) else 0
  }

  /** Pennies all allocations together have applied to a charge line. */
  function Applied(journal: seq<Entry>, id: string): int { SumOf(journal, AppliedBy(id)) }

  function CreditBy(accountId: string): Entry -> int {
    (e: Entry) => if e.LegacyCharged? || e.accountId != accountId then 0
                  else if e.Allocated? then NonNegative(e.amount) - TotalAllocated(e.lines)
                  else e.amount
  }

  /** Credit standing on an account: what its allocated payments did not hand out, its legacy payments,
      and charges that were deliberately not posted. A pro-rata payment that hands out more than it
      brings in takes credit away. */
  function Credit(journal: seq<Entry>, accountId: string): int { SumOf(journal, CreditBy(accountId)) }

  function DirectBy(invoiceId: string): Entry -> int {
    (e: Entry) => if e.LegacyPaid? && e.invoiceId == Some(invoiceId) then e.amount else 0
  }

  /** Legacy payments booked straight onto an invoice. */
  function Direct(journal: seq<Entry>, invoiceId: string): int { SumOf(journal, DirectBy(invoiceId)) }

  function LegacyBy(accountId: string): Entry -> int {
    (e: Entry) => if e.accountId != accountId then 0
                  else if e.LegacyCharged? then e.amount
                  else if e.LegacyPaid? then -e.amount
                  else 0
  }

  function LegacyNet(journal: seq<Entry>, accountId: string): int { SumOf(journal, LegacyBy(accountId)) }

  // ---------------------------------------------------------------- transactions

  datatype World = World(tables: Tables, journal: seq<Entry>)

  datatype NewLine = NewLine(id: string, amount: int, status: ChargeStatus, dueDate: Option<int>, createdAt: int)

  datatype Event =
    | OpenAccount(accountId: string)
    | CreateWithLines(accountId: string, invoiceId: string, totalAmount: int, status: InvoiceStatus,
                      lines: seq<NewLine>, incrementBalance: bool)
    | CreateCharge(accountId: string, forInvoice: Option<string>, line: NewLine)
    | AddPayment(paymentId: string, accountId: string, amount: int, completed: bool)
    | CreatePayment(paymentId: string, accountId: string, amount: int, completed: bool, forInvoice: Option<string>)
    | SetInvoiceStatus(invoiceId: string, status: InvoiceStatus)
    | AllocateForPayment(paymentId: string, strategy: Strategy)

  function RowFrom(accountId: string, invoiceId: Option<string>): NewLine -> ChargeRow {
    (l: NewLine) => ChargeRow(l.id, accountId, invoiceId, l.amount, 0, l.status, l.dueDate, l.createdAt)
  }

  function NewLineAmount(l: NewLine): int { l.amount }

  /** Primary keys are fresh: no row carries any of the new ids and the new ids differ. */
  predicate FreshIds(rows: seq<ChargeRow>, lines: seq<NewLine>) {
    && (forall i, j :: 0 <= i < |rows| && 0 <= j < |lines| ==> rows[i].id != lines[j].id)
    && (forall i, j :: 0 <= i < j < |lines| ==> lines[i].id != lines[j].id)
  }

  /** The lines' total moves the balance and, by its sign, the debits or the credits. */
  function PostLines(a: Account, total: int): Account {
    Account(a.balance + total,
            if total > 0 then a.totalDebits + total else a.totalDebits,
            if total < 0 then a.totalCredits - total else a.totalCredits)
  }

  function BookDirectly(invoices: map<string, InvoiceRow>, inv: string, amount: int): map<string, InvoiceRow>
    requires inv in invoices
  {
    invoices[inv := invoices[inv].(paidAmount := invoices[inv].paidAmount + amount)]
  }

  /** Foreign and primary keys as the database enforces them, and the service's own guards. An event
      that fails its guard aborts its transaction and changes nothing. */
  predicate Accepts(t: Tables, e: Event) {
    match e
    case OpenAccount(a) => a !in t.accounts
    case CreateWithLines(a, inv, _, _, lines, _) =>
      a in t.accounts && inv !in t.invoices && inv != "" && FreshIds(t.charges, lines)
    case CreateCharge(a, inv, line) =>
      a in t.accounts && (inv.Some? ==> inv.value in t.invoices) && FreshIds(t.charges, [line])
    case AddPayment(p, a, _, _) => p !in t.payments && a in t.accounts
    case CreatePayment(p, a, _, _, inv) =>
      p !in t.payments && a in t.accounts && (inv.Some? ==> inv.value in t.invoices)
    case SetInvoiceStatus(inv, _) => inv in t.invoices
    case AllocateForPayment(p, _) =>
      p in t.payments && t.payments[p].completed && !t.payments[p].stamped && t.payments[p].accountId in t.accounts
  }

  function AllocationFor(t: Tables, paymentId: string, strategy: Strategy): seq<Line>
    requires paymentId in t.payments
  {
    var p := t.payments[paymentId];
    Allocation(strategy, p.amount, FindOpenForAccount(t, p.accountId))
  }

  function AllocateTables(t: Tables, paymentId: string, lines: seq<Line>): Tables
    requires paymentId in t.payments && t.payments[paymentId].accountId in t.accounts
  {
    var p := t.payments[paymentId];
    Tables(t.accounts[p.accountId := RecordPayment(t.accounts[p.accountId], p.amount)],
           CreditInvoices(t.invoices, lines),
           SettleRows(t.charges, lines),
           t.payments[paymentId := p.(stamped := true)])
  }

  function Step(w: World, e: Event): World {
    var t := w.tables;
    if !Accepts(t, e) then w else
    match e
    case OpenAccount(a) => w.(tables := t.(accounts := t.accounts[a := Account(0, 0, 0)]))
    case CreateWithLines(a, inv, totalAmount, status, lines, incrementBalance) =>
      var total := SumOf(lines, NewLineAmount);
      World(t.(accounts := if incrementBalance then t.accounts[a := PostLines(t.accounts[a], total)] else t.accounts,
               invoices := t.invoices[inv := InvoiceRow(a, totalAmount, 0, status)],
               charges := t.charges + Map(RowFrom(a, Some(inv)), lines)),
            if incrementBalance then w.journal else w.journal + [ChargedUnposted(a, total)])
    case CreateCharge(a, inv, line) =>
      World(t.(accounts := t.accounts[a := t.accounts[a].(balance := t.accounts[a].balance + line.amount)],
               charges := t.charges + Map(RowFrom(a, inv), [line])),
            w.journal + [LegacyCharged(a, line.amount)])
    case AddPayment(p, a, amount, completed) =>
      w.(tables := t.(payments := t.payments[p := PaymentRow(a, amount, completed, false)]))
    case CreatePayment(p, a, amount, completed, inv) =>
      World(t.(accounts := t.accounts[a := t.accounts[a].(balance := t.accounts[a].balance - amount)],
               invoices := if inv.None? then t.invoices else BookDirectly(t.invoices, inv.value, amount),
               payments := t.payments[p := PaymentRow(a, amount, completed, false)]),
            w.journal + [LegacyPaid(a, amount, inv)])
    case SetInvoiceStatus(inv, status) =>
      w.(tables := t.(invoices := t.invoices[inv := t.invoices[inv].(status := status)]))
    case AllocateForPayment(p, strategy) =>
      var lines := AllocationFor(t, p, strategy);
      World(AllocateTables(t, p, lines),
            w.journal + [Allocated(p, t.payments[p].accountId, t.payments[p].amount, lines)])
  }

  const EMPTY := World(Tables(map[], map[], [], map[]), [])

  function Run(w: World, events: seq<Event>): World
    decreases |events|
  {
    if events == [] then w else Run(Step(w, events[0]), events[1..])
  }
}
