/** The finance store as the repositories and `payments.service` drive it: each method updates the
    tables in place and is tied to the transaction it performs. */
module LedgerStore {
  import opened Prelude
  import opened PaymentAllocation
  import opened ProportionalAllocation
  import Tab = LedgerTables
  import Law = LedgerInvariant
  import Runs = LedgerRuns

  datatype Reply = NotFound | NotCompleted | AlreadyAllocated | Done(outcome: Outcome, paidIds: set<string>)

  /** The lines the service still counts once it knows which rows it flipped. */
  function Confirmed(lines: seq<Line>, flipped: set<string>): seq<Line> {
    if lines == [] then []
    else (if !lines[0].fullyCovered || lines[0].chargeLineId in flipped then [lines[0]] else [])
         + Confirmed(lines[1..], flipped)
  }

  lemma {:induction false} AllConfirmed(lines: seq<Line>, flipped: set<string>)
    requires forall l :: l in lines && l.fullyCovered ==> l.chargeLineId in flipped
    ensures Confirmed(lines, flipped) == lines
  {
    if lines == [] {
    } else {
      AllConfirmed(lines[1..], flipped);
    }
  }

  /** Steps 6 and 7 of the service on the invoice table: book each impact, then promote each status. */
  function BookAll(invoices: map<string, Tab.InvoiceRow>, impacts: seq<Impact>): map<string, Tab.InvoiceRow>
    requires forall i :: i in impacts ==> i.invoiceId in invoices
    decreases |impacts|
  {
    if impacts == [] then invoices
    else
      var id, row := impacts[0].invoiceId, invoices[impacts[0].invoiceId];
      BookAll(invoices[id := row.(paidAmount := row.paidAmount + impacts[0].amount)], impacts[1..])
  }

  function PromoteAll(invoices: map<string, Tab.InvoiceRow>, impacts: seq<Impact>): map<string, Tab.InvoiceRow>
    requires forall i :: i in impacts ==> i.invoiceId in invoices
    decreases |impacts|
  {
    if impacts == [] then invoices
    else
      var id := impacts[0].invoiceId;
      PromoteAll(invoices[id := Tab.Promoted(invoices[id])], impacts[1..])
  }

  /** Pennies listed against an invoice. */
  function Listed(impacts: seq<Impact>, id: string): int {
    if impacts == [] then 0
    else (if impacts[0].invoiceId == id then impacts[0].amount else 0) + Listed(impacts[1..], id)
  }

  predicate Mentions(impacts: seq<Impact>, id: string) { exists i :: i in impacts && i.invoiceId == id }

  lemma {:induction false} BookAllAt(invoices: map<string, Tab.InvoiceRow>, impacts: seq<Impact>, id: string)
    requires forall i :: i in impacts ==> i.invoiceId in invoices
    ensures BookAll(invoices, impacts).Keys == invoices.Keys
    ensures id in invoices ==>
      BookAll(invoices, impacts)[id] == invoices[id].(paidAmount := invoices[id].paidAmount + Listed(impacts, id))
    decreases |impacts|
  {
    if impacts == [] {
    } else {
      var k, row := impacts[0].invoiceId, invoices[impacts[0].invoiceId];
      BookAllAt(invoices[k := row.(paidAmount := row.paidAmount + impacts[0].amount)], impacts[1..], id);
    }
  }

  lemma {:induction false} PromoteAllAt(invoices: map<string, Tab.InvoiceRow>, impacts: seq<Impact>, id: string)
    requires forall i :: i in impacts ==> i.invoiceId in invoices
    ensures PromoteAll(invoices, impacts).Keys == invoices.Keys
    ensures id in invoices ==>
      PromoteAll(invoices, impacts)[id] == if Mentions(impacts, id) then Tab.Promoted(invoices[id]) else invoices[id]
    decreases |impacts|
  {
    if impacts == [] {
    } else {
      var k := impacts[0].invoiceId;
      PromoteAllAt(invoices[k := Tab.Promoted(invoices[k])], impacts[1..], id);
      assert Mentions(impacts, id) <==> k == id || Mentions(impacts[1..], id) by {
        if k == id { assert impacts[0] in impacts; }
      }
    }
  }

  lemma {:induction false} ListedAt(impacts: seq<Impact>, k: nat)
    requires k < |impacts|
    requires forall i, j :: 0 <= i < j < |impacts| ==> impacts[i].invoiceId != impacts[j].invoiceId
    ensures Listed(impacts, impacts[k].invoiceId) == impacts[k].amount
  {
    if k > 0 {
      ListedAt(impacts[1..], k - 1);
    } else {
      forall i | i in impacts[1..] ensures i.invoiceId != impacts[0].invoiceId {}
      NotListed(impacts[1..], impacts[0].invoiceId);
    }
  }

  lemma {:induction false} NotListed(impacts: seq<Impact>, id: string)
    requires !Mentions(impacts, id)
    ensures Listed(impacts, id) == 0
  {
    if impacts == [] {
    } else {
      assert impacts[0] in impacts;
      forall i | i in impacts[1..] ensures i.invoiceId != id { assert i in impacts; }
      NotListed(impacts[1..], id);
    }
  }

  lemma {:induction false} ListedIsImpact(impacts: seq<Impact>, lines: seq<Line>, id: string)
    requires IsImpactOf(impacts, lines)
    ensures Listed(impacts, id) == ImpactOn(lines, id)
    ensures Mentions(impacts, id) <==> ImpactOn(lines, id) > 0
  {
    if Mentions(impacts, id) {
      var i :| i in impacts && i.invoiceId == id;
      var k :| 0 <= k < |impacts| && impacts[k] == i;
      ListedAt(impacts, k);
    } else {
      NotListed(impacts, id);
      forall i | 0 <= i < |impacts| ensures impacts[i].invoiceId != id { assert impacts[i] in impacts; }
      StrangersHaveNoImpact(impacts, lines, id);
    }
  }

  /** Booking and promoting the aggregated impact credits every invoice with what the lines bring it. */
  lemma {:induction false} BookingIsCrediting(invoices: map<string, Tab.InvoiceRow>, impacts: seq<Impact>,
                                              lines: seq<Line>)
    requires IsImpactOf(impacts, lines) && forall i :: i in impacts ==> i.invoiceId in invoices
    ensures BookAll(invoices, impacts).Keys == invoices.Keys
    ensures PromoteAll(BookAll(invoices, impacts), impacts) == Tab.CreditInvoices(invoices, lines)
  {
    BookAllAt(invoices, impacts, "");
    var booked := BookAll(invoices, impacts);
    PromoteAllAt(booked, impacts, "");
    forall id | id in invoices
      ensures PromoteAll(booked, impacts)[id] == Tab.CreditInvoice(invoices[id], ImpactOn(lines, id))
    {
      BookAllAt(invoices, impacts, id);
      PromoteAllAt(booked, impacts, id);
      ListedIsImpact(impacts, lines, id);
      Law.ImpactNonNegative(lines, id);
    }
  }

  /** Re-reading the statuses finds exactly the planned rows, whatever the update count said. */
  lemma RereadFindsPlanned(rows: seq<Tab.ChargeRow>, lines: seq<Line>, owner: string, invoices: map<string,
                           Tab.InvoiceRow>)
    requires Law.LinesOfRows(lines, rows, owner, invoices)
    ensures var planned, after := Tab.PlannedIds(lines), Tab.MarkPaidBulk(rows, Tab.PlannedIds(lines));
      (set r | r in after && r.id in planned && r.status == Tab.PAID :: r.id) == planned
  {
  }

  lemma {:induction false} CoveredLinesArePlanned(rows: seq<Tab.ChargeRow>, lines: seq<Line>, owner: string,
                                                  invoices: map<string, Tab.InvoiceRow>)
    requires Law.LinesOfRows(lines, rows, owner, invoices)
    ensures Confirmed(lines, Tab.PlannedIds(lines)) == lines
    ensures forall l :: l in lines && Billable(l) ==> l.invoiceId.value in invoices
  {
    forall l | l in lines
      ensures l.fullyCovered ==> l.chargeLineId in Tab.PlannedIds(lines)
      ensures Billable(l) ==> l.invoiceId.value in invoices
    {
      assert Law.HasRow(l, rows, owner, invoices);
    }
    AllConfirmed(lines, Tab.PlannedIds(lines));
  }

  class Store {
    var accounts: map<string, Tab.Account>
    var invoices: map<string, Tab.InvoiceRow>
    var charges: seq<Tab.ChargeRow>
    var payments: map<string, Tab.PaymentRow>
    ghost var journal: seq<Tab.Entry>

    function Tables(): Tab.Tables
      reads this
    {
      Tab.Tables(accounts, invoices, charges, payments)
    }

    ghost function World(): Tab.World
      reads this
    {
      Tab.World(Tables(), journal)
    }

    ghost predicate Valid()
      reads this
    {
      Law.Inv(World())
    }

    constructor ()
      ensures Valid() && World() == Tab.EMPTY
    {
      accounts, invoices, charges, payments := map[], map[], [], map[];
      journal := [];
    }

    // ------------------------------------------------------------ repository primitives

    /** `updateMany` where `allocatedAt IS NULL`: the count says whether this call won the payment. */
    method StampAllocatedAtInTx(id: string) returns (count: nat)
      modifies this`payments
      ensures count == if id in old(payments) && !old(payments)[id].stamped then 1 else 0
      ensures payments == if count == 1 then old(payments)[id := old(payments)[id].(stamped := true)] else old(payments)
    {
      count := 0;
      if id in payments && !payments[id].stamped {
        payments := payments[id := payments[id].(stamped := true)];
        count := 1;
      }
    }

    method MarkPaidBulk(ids: set<string>) returns (count: nat)
      modifies this`charges
      ensures charges == Tab.MarkPaidBulk(old(charges), ids)
      ensures count == |set r | r in old(charges) && r.id in ids && Tab.OpenStatus(r.status)|
    {
      count := |set r | r in charges && r.id in ids && Tab.OpenStatus(r.status)|;
      charges := Tab.MarkPaidBulk(charges, ids);
    }

    method UpdatePartialPaidAmounts(updates: seq<Line>)
      modifies this`charges
      ensures charges == Tab.UpdatePartialPaidAmounts(old(charges), updates)
    {
      for i := 0 to |updates|
        invariant Tab.UpdatePartialPaidAmounts(charges, updates[i..])
               == Tab.UpdatePartialPaidAmounts(old(charges), updates)
      {
        var u := updates[i];
        assert updates[i..][0] == u && updates[i..][1..] == updates[i + 1..];
        if u.amount > 0 {
          charges := Map(Tab.Increment(u.chargeLineId, u.amount), charges);
        }
      }
    }

    method IncrementPaidAmountInTx(id: string, amount: int)
      requires id in invoices
      modifies this`invoices
      ensures invoices == old(invoices)[id := old(invoices)[id].(paidAmount := old(invoices)[id].paidAmount + amount)]
    {
      invoices := invoices[id := invoices[id].(paidAmount := invoices[id].paidAmount + amount)];
    }

    method PromoteStatus(id: string)
      requires id in invoices
      modifies this`invoices
      ensures invoices == old(invoices)[id := Tab.Promoted(old(invoices)[id])]
    {
      var row := invoices[id];
      if row.paidAmount >= row.totalAmount {
        invoices := invoices[id := row.(status := Tab.FULLY_PAID)];
      } else if row.paidAmount > 0 {
        invoices := invoices[id := row.(status := Tab.PARTIALLY_PAID)];
      }
    }

    method RecordPaymentLedgerEntryInTx(accountId: string, amount: int)
      requires accountId in accounts
      modifies this`accounts
      ensures var a := old(accounts)[accountId];
        accounts
        == old(accounts)[accountId := a.(balance := a.balance - amount, totalCredits := a.totalCredits + amount)]
    {
      var a := accounts[accountId];
      accounts := accounts[accountId := a.(balance := a.balance - amount, totalCredits := a.totalCredits + amount)];
    }

    /** Step 8: only a positive payment is posted. */
    method PostPayment(accountId: string, amount: int)
      requires accountId in accounts
      modifies this`accounts
      ensures accounts == old(accounts)[accountId := Tab.RecordPayment(old(accounts)[accountId], amount)]
    {
      if amount > 0 { RecordPaymentLedgerEntryInTx(accountId, amount); }
    }

    // ------------------------------------------------------------ allocateForPayment

    /** Steps 5 to 7 of the service: add up the impact per invoice, book it, promote the statuses. */
    method CreditInvoices(lines: seq<Line>)
      requires forall l :: l in lines && Billable(l) ==> l.invoiceId.value in invoices
      modifies this`invoices
      ensures invoices == Tab.CreditInvoices(old(invoices), lines)
    {
      var impacts := AggregateInvoiceImpact(lines);
      forall i | i in impacts ensures i.invoiceId in invoices {
        if i.invoiceId !in invoices { NoImpact(lines, i.invoiceId); }
      }
      BookingIsCrediting(invoices, impacts, lines);
      for i := 0 to |impacts|
        invariant forall x :: x in impacts ==> x.invoiceId in invoices
        invariant BookAll(invoices, impacts[i..]) == BookAll(old(invoices), impacts)
      {
        assert impacts[i..][0] == impacts[i] && impacts[i..][1..] == impacts[i + 1..];
        IncrementPaidAmountInTx(impacts[i].invoiceId, impacts[i].amount);
      }
      for i := 0 to |impacts|
        invariant forall x :: x in impacts ==> x.invoiceId in invoices
        invariant PromoteAll(invoices, impacts[i..]) == Tab.CreditInvoices(old(invoices), lines)
      {
        assert impacts[i..][0] == impacts[i] && impacts[i..][1..] == impacts[i + 1..];
        PromoteStatus(impacts[i].invoiceId);
      }
    }

    /** Steps 3 and 4: flip the covered lines, find out which were flipped, then increment. */
    method SettleCharges(lines: seq<Line>, ghost owner: string) returns (flipped: set<string>)
      requires Law.LinesOfRows(lines, charges, owner, invoices)
      modifies this`charges
      ensures charges == Tab.SettleRows(old(charges), lines)
      ensures flipped == Tab.PlannedIds(lines)
    {
      RereadFindsPlanned(charges, lines, owner, invoices);
      CoveredLinesArePlanned(charges, lines, owner, invoices);
      var planned := Tab.PlannedIds(lines);
      flipped := planned;
      var count := MarkPaidBulk(planned);
      if count < |planned| {
        flipped := set r | r in charges && r.id in planned && r.status == Tab.PAID :: r.id;
      }
      UpdatePartialPaidAmounts(Confirmed(lines, flipped));
    }

    /** Steps 3 to 7. */
    method SettleAndCredit(lines: seq<Line>, ghost owner: string) returns (flipped: set<string>)
      requires Law.LinesOfRows(lines, charges, owner, invoices)
      modifies this`charges, this`invoices
      ensures charges == Tab.SettleRows(old(charges), lines)
      ensures invoices == Tab.CreditInvoices(old(invoices), lines)
      ensures flipped == Tab.PlannedIds(lines)
    {
      CoveredLinesArePlanned(charges, lines, owner, invoices);
      flipped := SettleCharges(lines, owner);
      CreditInvoices(lines);
    }

    /** The transaction itself, in the order of the service. */
    method AllocateInTx(paymentId: string, strategy: Option<Strategy>) returns (outcome: Outcome, flipped: set<string>)
      requires paymentId in payments && !payments[paymentId].stamped && payments[paymentId].accountId in accounts
      requires Law.DistinctRows(charges)
      modifies this
      ensures outcome.strategy == if strategy.Some? then strategy.value else Fifo
      ensures outcome.allocations == Tab.AllocationFor(old(Tables()), paymentId, outcome.strategy)
      ensures Tables() == Tab.AllocateTables(old(Tables()), paymentId, outcome.allocations)
      ensures flipped == Tab.PlannedIds(outcome.allocations)
      ensures journal == old(journal) + [Tab.Allocated(paymentId, old(payments)[paymentId].accountId,
                                                       old(payments)[paymentId].amount, outcome.allocations)]
    {
      var payment := payments[paymentId];
      var owner := payment.accountId;
      ghost var before := Tables();
      var count := StampAllocatedAtInTx(paymentId);
      assert count == 1;
      var openCharges := Tab.FindOpenForAccount(Tables(), owner);
      assert openCharges == Tab.FindOpenForAccount(before, owner);
      outcome := AllocatePayment(payment.amount, openCharges, strategy);
      var lines := outcome.allocations;
      Law.AllocationOfRows(before, paymentId, outcome.strategy, lines);
      flipped := SettleAndCredit(lines, owner);
      PostPayment(owner, payment.amount);
      journal := journal + [Tab.Allocated(paymentId, owner, payment.amount, lines)];
    }

    method AllocateForPayment(paymentId: string, strategy: Option<Strategy>) returns (reply: Reply)
      requires Valid()
      modifies this
      ensures Valid()
      ensures var chosen := if strategy.Some? then strategy.value else Fifo;
        World() == Tab.Step(old(World()), Tab.AllocateForPayment(paymentId, chosen))
      ensures reply.NotFound? <==> paymentId !in old(payments)
      ensures reply.NotCompleted? <==> paymentId in old(payments) && !old(payments)[paymentId].completed
      ensures reply.AlreadyAllocated? <==>
                paymentId in old(payments) && old(payments)[paymentId].completed && old(payments)[paymentId].stamped
      ensures reply.Done? ==>
                && reply.outcome.allocations == Tab.AllocationFor(old(Tables()), paymentId, reply.outcome.strategy)
                && reply.paidIds == Tab.PlannedIds(reply.outcome.allocations)
    {
      if paymentId !in payments { return NotFound; }
      if !payments[paymentId].completed { return NotCompleted; }
      if payments[paymentId].stamped { return AlreadyAllocated; }
      ghost var before := World();
      var outcome, flipped := AllocateInTx(paymentId, strategy);
      Runs.StepKeepsInvariant(before, Tab.AllocateForPayment(paymentId, outcome.strategy));
      reply := Done(outcome, flipped);
    }

    // ------------------------------------------------------------ the other transactions

    method OpenAccount(accountId: string) returns (ok: bool)
      modifies this
      ensures ok == Tab.Accepts(old(Tables()), Tab.OpenAccount(accountId))
      ensures World() == Tab.Step(old(World()), Tab.OpenAccount(accountId))
    {
      ok := accountId !in accounts;
      if ok { accounts := accounts[accountId := Tab.Account(0, 0, 0)]; }
    }

    method CreateWithLines(accountId: string, invoiceId: string, totalAmount: int, status: Tab.InvoiceStatus,
                           lines: seq<Tab.NewLine>, incrementBalance: bool) returns (ok: bool)
      modifies this
      ensures var e := Tab.CreateWithLines(accountId, invoiceId, totalAmount, status, lines, incrementBalance);
        ok == Tab.Accepts(old(Tables()), e) && World() == Tab.Step(old(World()), e)
    {
      ok := accountId in accounts && invoiceId !in invoices && invoiceId != "" && Tab.FreshIds(charges, lines);
      if !ok { return; }
      var total := SumOf(lines, Tab.NewLineAmount);
      invoices := invoices[invoiceId := Tab.InvoiceRow(accountId, totalAmount, 0, status)];
      charges := charges + Map(Tab.RowFrom(accountId, Some(invoiceId)), lines);
      if incrementBalance {
        var a := accounts[accountId];
        if total != 0 { a := a.(balance := a.balance + total); }
        if total > 0 { a := a.(totalDebits := a.totalDebits + total); }
        if total < 0 { a := a.(totalCredits := a.totalCredits - total); }
        accounts := accounts[accountId := a];
      } else {
        journal := journal + [Tab.ChargedUnposted(accountId, total)];
      }
    }

    method CreateCharge(accountId: string, forInvoice: Option<string>, line: Tab.NewLine) returns (ok: bool)
      modifies this
      ensures var e := Tab.CreateCharge(accountId, forInvoice, line);
        ok == Tab.Accepts(old(Tables()), e) && World() == Tab.Step(old(World()), e)
    {
      ok := accountId in accounts && (forInvoice.Some? ==> forInvoice.value in invoices)
        && Tab.FreshIds(charges, [line]);
      if ok {
        charges := charges + Map(Tab.RowFrom(accountId, forInvoice), [line]);
        accounts := accounts[accountId := accounts[accountId].(balance := accounts[accountId].balance + line.amount)];
        journal := journal + [Tab.LegacyCharged(accountId, line.amount)];
      }
    }

    method CreatePayment(paymentId: string, accountId: string, amount: int, completed: bool, forInvoice: Option<string>)
      returns (ok: bool)
      modifies this
      ensures var e := Tab.CreatePayment(paymentId, accountId, amount, completed, forInvoice);
        ok == Tab.Accepts(old(Tables()), e) && World() == Tab.Step(old(World()), e)
    {
      ok := paymentId !in payments && accountId in accounts && (forInvoice.Some? ==> forInvoice.value in invoices);
      if ok {
        payments := payments[paymentId := Tab.PaymentRow(accountId, amount, completed, false)];
        accounts := accounts[accountId := accounts[accountId].(balance := accounts[accountId].balance - amount)];
        if forInvoice.Some? { IncrementPaidAmountInTx(forInvoice.value, amount); }
        journal := journal + [Tab.LegacyPaid(accountId, amount, forInvoice)];
      }
    }
  }
}
