/** The order in which payments are stored: whichever comes first, the same tables result, up to the
    paid amounts that the code leaves behind on the lines it closes. */
module LedgerOrder {
  import opened Prelude
  import opened PaymentAllocation
  import opened ProportionalAllocation
  import opened LedgerTables
  import opened LedgerInvariant
  import opened LedgerRuns
  import opened LedgerReordered
  import opened LedgerComposition

  // ---------------------------------------------------------------- what a list of payments changes

  /** A row keeps all but its paid amount and status, and only a row that received money is closed. */
  ghost predicate RowFollows(r: ChargeRow, r': ChargeRow, journal': seq<Entry>) {
    && r' == r.(status := r'.status, paidAmount := r'.paidAmount)
    && (r'.status == r.status || (OpenStatus(r.status) && r'.status == PAID && Applied(journal', r.id) > 0))
  }

  ghost predicate RowsFollow(rows: seq<ChargeRow>, rows': seq<ChargeRow>, journal': seq<Entry>) {
    |rows'| == |rows| && forall i :: 0 <= i < |rows| ==> RowFollows(rows[i], rows'[i], journal')
  }

  /** An invoice is credited with what its paid amount gained. */
  ghost predicate InvoiceFollows(row: InvoiceRow, row': InvoiceRow) {
    row.paidAmount <= row'.paidAmount && row' == CreditInvoice(row, row'.paidAmount - row.paidAmount)
  }

  ghost predicate InvoicesFollow(invoices: map<string, InvoiceRow>, invoices': map<string, InvoiceRow>) {
    && invoices'.Keys == invoices.Keys
    && forall inv :: inv in invoices ==> InvoiceFollows(invoices[inv], invoices'[inv])
  }

  function Credited(x: Account, pennies: int): Account {
    x.(balance := x.balance - pennies, totalCredits := x.totalCredits + pennies)
  }

  /** Each account is credited with the payments into it. */
  ghost predicate AccountsFollow(t: Tables, accounts': map<string, Account>, ps: seq<string>) {
    && accounts'.Keys == t.accounts.Keys
    && forall a :: a in t.accounts ==> accounts'[a] == Credited(t.accounts[a], Paid(t, a, ps))
  }

  ghost predicate PaymentsFollow(payments: map<string, PaymentRow>, payments': map<string, PaymentRow>,
                                 ps: seq<string>) {
    && payments'.Keys == payments.Keys
    && forall p :: p in payments ==> payments'[p] == payments[p].(stamped := payments[p].stamped || p in ps)
  }

  ghost predicate JournalFollows(journal: seq<Entry>, journal': seq<Entry>) {
    && (forall id :: Applied(journal', id) >= Applied(journal, id))
    && forall inv :: Direct(journal', inv) == Direct(journal, inv)
  }

  ghost predicate Follows(w: World, w': World, ps: seq<string>) {
    && RowsFollow(w.tables.charges, w'.tables.charges, w'.journal)
    && InvoicesFollow(w.tables.invoices, w'.tables.invoices)
    && AccountsFollow(w.tables, w'.tables.accounts, ps)
    && PaymentsFollow(w.tables.payments, w'.tables.payments, ps)
    && JournalFollows(w.journal, w'.journal)
  }

  // ---------------------------------------------------------------- one payment

  lemma {:induction false} JournalFollowsAllocation(journal: seq<Entry>, e: Entry)
    requires e.Allocated? && forall l :: l in e.lines ==> l.amount >= 0
    ensures JournalFollows(journal, journal + [e])
  {
    forall id ensures Applied(journal + [e], id) >= Applied(journal, id) {
      AppliedGrows(journal, e, id);
      AllocatedNonNegative(e.lines, id);
    }
    forall inv ensures Direct(journal + [e], inv) == Direct(journal, inv) { JournalGrows(journal, e, "x", inv); }
  }

  lemma {:induction false} InvoicesFollowAllocation(invoices: map<string, InvoiceRow>, lines: seq<Line>)
    ensures InvoicesFollow(invoices, CreditInvoices(invoices, lines))
  {
    forall inv | inv in invoices ensures InvoiceFollows(invoices[inv], CreditInvoices(invoices, lines)[inv]) {
      ImpactNonNegative(lines, inv);
    }
  }

  lemma {:induction false} RowsFollowAllocation(rows: seq<ChargeRow>, journal: seq<Entry>, e: Entry,
                                                invoices: map<string, InvoiceRow>)
    requires DistinctRows(rows) && e.Allocated? && LinesOfRows(e.lines, rows, e.accountId, invoices)
    requires forall r :: r in rows ==> RowOk(r, journal)
    ensures RowsFollow(rows, SettleRows(rows, e.lines), journal + [e])
  {
    LinesNonNegative(e.lines, rows, e.accountId, invoices);
    SettleRowsRowwise(rows, e.lines);
    forall i | 0 <= i < |rows| ensures RowFollows(rows[i], SettledRow(rows[i], e.lines), journal + [e]) {
      assert rows[i] in rows && RowOk(rows[i], journal);
      AppliedGrows(journal, e, rows[i].id);
      if rows[i].id in PlannedIds(e.lines) && OpenStatus(rows[i].status) {
        PlannedRowIsMet(rows, e.lines, e.accountId, invoices, rows[i]);
      }
    }
  }

  lemma {:induction false} AllocationFollows(w: World, p: string)
    requires Inv(w) && Accepts(w.tables, AllocateForPayment(p, Fifo))
    ensures Follows(w, Step(w, AllocateForPayment(p, Fifo)), [p])
  {
    hide AccountsOk, InvoicesOk, AppliedOnce, RowsFollow, InvoicesFollow, JournalFollows, AccountsFollow;
    hide AllocationFor, SettleRows;
    var t, lines, w' := w.tables, AllocationFor(w.tables, p, Fifo), Step(w, AllocateForPayment(p, Fifo));
    var payment := t.payments[p];
    var e := Allocated(p, payment.accountId, payment.amount, lines);
    AllocationOfRows(t, p, Fifo, lines);
    LinesNonNegative(lines, t.charges, payment.accountId, t.invoices);
    RowsFollowAllocation(t.charges, w.journal, e, t.invoices);
    InvoicesFollowAllocation(t.invoices, lines);
    JournalFollowsAllocation(w.journal, e);
    AccountsFollowAllocation(t, p);
  }

  lemma {:induction false} PaidOne(t: Tables, a: string, p: string)
    ensures Paid(t, a, [p]) == PaidInto(t, a)(p)
  {
    assert [p][1..] == [];
    assert SumOf([p], PaidInto(t, a)) == PaidInto(t, a)(p) + SumOf([], PaidInto(t, a));
  }

  lemma {:induction false} AccountsFollowAllocation(t: Tables, p: string)
    requires p in t.payments && t.payments[p].accountId in t.accounts
    ensures var payment := t.payments[p];
      var paid := RecordPayment(t.accounts[payment.accountId], payment.amount);
      AccountsFollow(t, t.accounts[payment.accountId := paid], [p])
  {
    hide Paid;
    forall a ensures Paid(t, a, [p]) == PaidInto(t, a)(p) { PaidOne(t, a, p); }
  }

  // ---------------------------------------------------------------- one payment after another

  /** Two credits are one, in amount and in the status they leave. */
  lemma InvoiceFollowsOn(row: InvoiceRow, row': InvoiceRow, row'': InvoiceRow)
    requires InvoiceFollows(row, row') && InvoiceFollows(row', row'')
    ensures InvoiceFollows(row, row'')
  {
  }

  lemma {:induction false} FollowsOn(w: World, w': World, w'': World, p: string, rest: seq<string>)
    requires Follows(w, w', [p]) && Follows(w', w'', rest)
    requires forall a :: Paid(w'.tables, a, rest) == Paid(w.tables, a, rest)
    ensures Follows(w, w'', [p] + rest)
  {
    hide Paid, Applied;
    forall i | 0 <= i < |w.tables.charges|
      ensures RowFollows(w.tables.charges[i], w''.tables.charges[i], w''.journal)
    {
      assert RowFollows(w.tables.charges[i], w'.tables.charges[i], w'.journal);
      assert RowFollows(w'.tables.charges[i], w''.tables.charges[i], w''.journal);
    }
    forall inv | inv in w.tables.invoices
      ensures InvoiceFollows(w.tables.invoices[inv], w''.tables.invoices[inv])
    {
      InvoiceFollowsOn(w.tables.invoices[inv], w'.tables.invoices[inv], w''.tables.invoices[inv]);
    }
    forall a ensures Paid(w.tables, a, [p] + rest) == Paid(w.tables, a, [p]) + Paid(w.tables, a, rest) {
      PaidAppend(w.tables, a, [p], rest);
    }
  }

  lemma {:induction false} PaidAppend(t: Tables, a: string, ps: seq<string>, qs: seq<string>)
    ensures Paid(t, a, ps + qs) == Paid(t, a, ps) + Paid(t, a, qs)
  {
    SumOfAppend(ps, qs, PaidInto(t, a));
  }

  /** Paying any list of payments changes the tables in these ways only. */
  lemma {:induction false} PayEachFollows(w: World, ps: seq<string>)
    requires Inv(w) && Spendable(w.tables, ps)
    ensures Inv(PayEach(w, ps)) && Follows(w, PayEach(w, ps), ps)
    decreases |ps|
  {
    hide Inv, Step, Accepts, Paid;
    if ps == [] {
      NothingFollows(w);
    } else {
      hide Follows;
      var once, rest := Step(w, AllocateForPayment(ps[0], Fifo)), ps[1..];
      RestStaysSpendable(w, ps);
      AllocationFollows(w, ps[0]);
      PayEachFollows(once, rest);
      forall a ensures Paid(once.tables, a, rest) == Paid(w.tables, a, rest) { PaidFirst(w, a, ps); }
      FollowsOn(w, once, PayEach(w, ps), ps[0], rest);
      assert [ps[0]] + rest == ps;
    }
  }

  lemma NothingFollows(w: World)
    ensures Follows(w, w, [])
  {
  }

  // ---------------------------------------------------------------- any order

  /** A row's status follows from what was applied to it. */
  lemma StatusFromApplied(r: ChargeRow, r': ChargeRow, journal': seq<Entry>)
    requires RowFollows(r, r', journal') && RowOk(r', journal')
    ensures r'.status == if OpenStatus(r.status) && Applied(journal', r.id) == r.amount > 0 then PAID else r.status
  {
  }

  /** Worlds that follow from one by the same payments and apply the same to every line agree. */
  lemma {:induction false} SameAppliedSameTables(w: World, u: World, v: World, ps: seq<string>, qs: seq<string>)
    requires Follows(w, u, ps) && Follows(w, v, qs) && Inv(u) && Inv(v) && multiset(ps) == multiset(qs)
    requires SameApplied(u.journal, v.journal)
    ensures Restored(u).tables == Restored(v).tables
  {
    hide KeysOk, AccountsOk, AppliedOnce, Applied, Direct, Paid;
    var rows, us, vs := w.tables.charges, Restored(u).tables.charges, Restored(v).tables.charges;
    forall i | 0 <= i < |rows| ensures us[i] == vs[i] {
      var r, r1, r2 := rows[i], u.tables.charges[i], v.tables.charges[i];
      assert r1 in u.tables.charges && r2 in v.tables.charges;
      assert RowFollows(r, r1, u.journal) && RowFollows(r, r2, v.journal);
      StatusFromApplied(r, r1, u.journal);
      StatusFromApplied(r, r2, v.journal);
    }
    assert us == vs;
    forall inv | inv in w.tables.invoices ensures u.tables.invoices[inv] == v.tables.invoices[inv] {
      SameInvoicePaid(w, u, v, inv);
      assert InvoiceFollows(w.tables.invoices[inv], u.tables.invoices[inv]);
      assert InvoiceFollows(w.tables.invoices[inv], v.tables.invoices[inv]);
    }
    assert u.tables.invoices == v.tables.invoices;
    forall a ensures Paid(w.tables, a, ps) == Paid(w.tables, a, qs) { PaidPermutes(w.tables, a, ps, qs); }
    assert u.tables.accounts == v.tables.accounts;
    SameMembers(ps, qs);
    assert u.tables.payments == v.tables.payments;
  }

  lemma {:induction false} PaidPermutes(t: Tables, a: string, ps: seq<string>, qs: seq<string>)
    requires multiset(ps) == multiset(qs)
    ensures Paid(t, a, ps) == Paid(t, a, qs)
  {
    SumOfPermutation(ps, qs, PaidInto(t, a));
  }

  lemma {:induction false} SameMembers(ps: seq<string>, qs: seq<string>)
    requires multiset(ps) == multiset(qs)
    ensures forall p :: p in ps <==> p in qs
  {
    forall p ensures p in ps <==> p in qs {
      assert p in ps <==> p in multiset(ps);
      assert p in qs <==> p in multiset(qs);
    }
  }

  lemma {:induction false} SameInvoicePaid(w: World, u: World, v: World, inv: string)
    requires RowsFollow(w.tables.charges, u.tables.charges, u.journal)
    requires RowsFollow(w.tables.charges, v.tables.charges, v.journal)
    requires JournalFollows(w.journal, u.journal) && JournalFollows(w.journal, v.journal)
    requires SameApplied(u.journal, v.journal) && InvoicesOk(u) && InvoicesOk(v)
    requires inv in u.tables.invoices && inv in v.tables.invoices
    ensures u.tables.invoices[inv].paidAmount == v.tables.invoices[inv].paidAmount
  {
    var us, vs := u.tables.charges, v.tables.charges;
    forall i | 0 <= i < |us| ensures AppliedTowards(inv, u.journal)(us[i]) == AppliedTowards(inv, v.journal)(vs[i]) {
      assert RowFollows(w.tables.charges[i], us[i], u.journal) && RowFollows(w.tables.charges[i], vs[i], v.journal);
    }
    SumOfEqual(us, vs, AppliedTowards(inv, u.journal), AppliedTowards(inv, v.journal));
  }

  /** Every id is a line of one account at most. */
  lemma {:induction false} OwnerOf(rows: seq<ChargeRow>, id: string) returns (a: string)
    requires DistinctRows(rows)
    ensures Belongs(rows, id, a)
  {
    if i :| 0 <= i < |rows| && rows[i].id == id {
      a := rows[i].accountId;
    } else {
      a := "";
    }
  }

  lemma {:induction false} OrderSeesNothing(w: World, ps: seq<string>, qs: seq<string>, a: string, id: string)
    requires Inv(w) && Spendable(w.tables, ps) && Spendable(w.tables, qs) && multiset(ps) == multiset(qs)
    requires Belongs(w.tables.charges, id, a)
    ensures Applied(PayEach(w, ps).journal, id) == Applied(PayEach(w, qs).journal, id)
    ensures Credit(PayEach(w, ps).journal, a) == Credit(PayEach(w, qs).journal, a)
  {
    hide Inv, PayEach, Paid, Applied, Credit, FifoNow;
    StoredPaymentsCompose(w, a, ps, id);
    StoredPaymentsCompose(w, a, qs, id);
    PaidPermutes(w.tables, a, ps, qs);
  }

  /** Some id that no line carries: one longer than all of them. */
  lemma {:induction false} FreshId(rows: seq<ChargeRow>) returns (id: string)
    ensures forall i :: 0 <= i < |rows| ==> |rows[i].id| < |id|
  {
    if rows == [] {
      id := "x";
    } else {
      var rest := FreshId(rows[1..]);
      id := rest + rows[0].id + "x";
      forall i | 0 <= i < |rows| ensures |rows[i].id| < |id| {
        if i > 0 { assert rows[i] == rows[1..][i - 1]; }
      }
    }
  }

  lemma {:induction false} StoredOrderCreditsAlike(w: World, ps: seq<string>, qs: seq<string>, a: string)
    requires Inv(w) && Spendable(w.tables, ps) && Spendable(w.tables, qs) && multiset(ps) == multiset(qs)
    ensures Credit(PayEach(w, ps).journal, a) == Credit(PayEach(w, qs).journal, a)
  {
    hide Inv, PayEach, Credit;
    var id := FreshId(w.tables.charges);
    OrderSeesNothing(w, ps, qs, a, id);
  }

  /** Whatever order a list of FIFO payments into any accounts is stored in, every line and every
      account's credit receive the same, and the tables end the same once closed lines show what was
      applied to them. */
  lemma {:induction false} StoredOrderIrrelevant(w: World, ps: seq<string>, qs: seq<string>)
    requires Inv(w) && Spendable(w.tables, ps) && Spendable(w.tables, qs) && multiset(ps) == multiset(qs)
    ensures Restored(PayEach(w, ps)).tables == Restored(PayEach(w, qs)).tables
    ensures SameApplied(PayEach(w, ps).journal, PayEach(w, qs).journal)
    ensures forall a :: Credit(PayEach(w, ps).journal, a) == Credit(PayEach(w, qs).journal, a)
  {
    hide PayEach, Follows, Restored, Applied, Credit, RowsOk, AccountsOk, InvoicesOk, AppliedOnce;
    forall id ensures Applied(PayEach(w, ps).journal, id) == Applied(PayEach(w, qs).journal, id) {
      var a := OwnerOf(w.tables.charges, id);
      OrderSeesNothing(w, ps, qs, a, id);
    }
    forall a ensures Credit(PayEach(w, ps).journal, a) == Credit(PayEach(w, qs).journal, a) {
      StoredOrderCreditsAlike(w, ps, qs, a);
    }
    PayEachFollows(w, ps);
    PayEachFollows(w, qs);
    SameAppliedSameTables(w, PayEach(w, ps), PayEach(w, qs), ps, qs);
  }

  // ---------------------------------------------------------------- with the increments first

  function Allocations(ps: seq<string>): seq<Event> {
    if ps == [] then [] else [AllocateForPayment(ps[0], Fifo)] + Allocations(ps[1..])
  }

  lemma {:induction false} PayEachIsRun(w: World, ps: seq<string>)
    ensures Run(w, Allocations(ps)) == PayEach(w, ps)
    decreases |ps|
  {
    if ps == [] {
    } else {
      assert Allocations(ps)[1..] == Allocations(ps[1..]);
      PayEachIsRun(Step(w, AllocateForPayment(ps[0], Fifo)), ps[1..]);
    }
  }

  /** With the increments first the order of payments leaves no trace in the tables at all. */
  lemma {:induction false} ReorderedOrderIrrelevant(w: World, ps: seq<string>, qs: seq<string>)
    requires Inv(w) && Spendable(w.tables, ps) && Spendable(w.tables, qs) && multiset(ps) == multiset(qs)
    ensures RunReordered(Restored(w), Allocations(ps)).tables == RunReordered(Restored(w), Allocations(qs)).tables
  {
    hide Inv, PayEach, Restored;
    RunsAgree(w, Allocations(ps));
    RunsAgree(w, Allocations(qs));
    PayEachIsRun(w, ps);
    PayEachIsRun(w, qs);
    StoredOrderIrrelevant(w, ps, qs);
  }
}
