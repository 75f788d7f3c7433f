/** What every run of ledger transactions keeps. */
module LedgerInvariant {
  import opened Prelude
  import opened Sorting
  import opened PaymentAllocation
  import opened ProportionalAllocation
  import opened LedgerTables

  // ---------------------------------------------------------------- lines and the charges they come from

  ghost predicate Matches(l: Line, c: Charge) {
    && l.chargeLineId == c.id && l.invoiceId == c.invoiceId && l.outstandingBefore == OutstandingFor(c)
    && 0 <= l.amount <= l.outstandingBefore
    && (l.fullyCovered <==> l.amount >= l.outstandingBefore > 0)
  }

  ghost predicate DistinctLines(lines: seq<Line>) {
    forall i, j :: 0 <= i < j < |lines| ==> lines[i].chargeLineId != lines[j].chargeLineId
  }

  ghost predicate LinesOver(lines: seq<Line>, charges: seq<Charge>) {
    && DistinctLines(lines)
    && forall l :: l in lines ==> exists c :: c in charges && Matches(l, c)
  }

  lemma {:induction false} OwingDistinct(sorted: seq<Charge>)
    requires DistinctIds(sorted)
    ensures DistinctIds(Owing(sorted))
    ensures forall c :: c in Owing(sorted) ==> c in sorted
  {
    if sorted == [] {
    } else {
      OwingDistinct(sorted[1..]);
      forall c | c in Owing(sorted[1..]) ensures c.id != sorted[0].id {
        var k :| 0 <= k < |sorted[1..]| && sorted[1..][k] == c;
        assert sorted[k + 1] == c;
      }
    }
  }

  /** Both strategies write at most one line per charge, and each line speaks of its charge. */
  lemma {:induction false} AllocationLines(strategy: Strategy, payment: int, charges: seq<Charge>, lines: seq<Line>)
    requires DistinctIds(charges) && lines == Allocation(strategy, payment, charges)
    ensures LinesOver(lines, charges)
  {
    AllocationWithinDebt(strategy, payment, charges, lines);
    match strategy
    case Fifo =>
      var sorted := FifoOrder(charges);
      FifoOrderIsSorted(charges);
      DistinctIdsPermute(charges, sorted);
      OwingDistinct(sorted);
      FifoWalkIsWaterfall(sorted, NonNegative(payment));
      forall k | 0 <= k < |lines| ensures Matches(lines[k], Owing(sorted)[k]) && Owing(sorted)[k] in charges {
        assert Owing(sorted)[k] in sorted && Owing(sorted)[k] in multiset(sorted);
        assert Owing(sorted)[k] in multiset(charges);
      }
    case Proportional =>
      ProportionalWithinDebt(NonNegative(payment), charges);
      forall k | 0 <= k < |lines| ensures Matches(lines[k], charges[k]) {}
  }

  lemma {:induction false} AllocatedToLine(lines: seq<Line>, k: nat)
    requires DistinctLines(lines) && k < |lines|
    ensures AllocatedTo(lines, lines[k].chargeLineId) == lines[k].amount
  {
    if k == 0 {
      AllocatedToStranger(lines[1..], lines[0].chargeLineId);
    } else {
      AllocatedToLine(lines[1..], k - 1);
    }
  }

  lemma {:induction false} AllocatedToStranger(lines: seq<Line>, id: string)
    requires forall l :: l in lines ==> l.chargeLineId != id
    ensures AllocatedTo(lines, id) == 0
  {
    if lines == [] {
    } else {
      AllocatedToStranger(lines[1..], id);
    }
  }

  // ---------------------------------------------------------------- open rows

  ghost predicate DistinctRows(rows: seq<ChargeRow>) {
    forall i, j :: 0 <= i < j < |rows| ==> rows[i].id != rows[j].id
  }

  lemma {:induction false} OpenRowsMembers(rows: seq<ChargeRow>, a: string, invoices: map<string, InvoiceRow>)
    requires DistinctRows(rows)
    ensures DistinctIds(OpenRows(rows, a, invoices))
    ensures forall c :: c in OpenRows(rows, a, invoices) <==>
              exists r :: r in rows && Allocatable(r, a, invoices) && c == AsCharge(r)
  {
    if rows == [] {
    } else {
      var tail, rest := rows[1..], OpenRows(rows[1..], a, invoices);
      OpenRowsMembers(tail, a, invoices);
      forall c | c in rest ensures c.id != rows[0].id {
        var r :| r in tail && c == AsCharge(r);
      }
    }
  }

  lemma {:induction false} OpenChargesAreOpenRows(t: Tables, a: string)
    requires DistinctRows(t.charges)
    ensures DistinctIds(FindOpenForAccount(t, a))
    ensures forall c :: c in FindOpenForAccount(t, a) <==>
              exists r :: r in t.charges && Allocatable(r, a, t.invoices) && c == AsCharge(r)
  {
    var open := OpenRows(t.charges, a, t.invoices);
    OpenRowsMembers(t.charges, a, t.invoices);
    SortPermutes(ReadLeq, open);
    DistinctIdsPermute(open, FindOpenForAccount(t, a));
    forall c ensures c in FindOpenForAccount(t, a) <==> c in open {
      assert c in FindOpenForAccount(t, a) <==> c in multiset(FindOpenForAccount(t, a));
      assert c in open <==> c in multiset(open);
    }
  }

  /** A line of an allocation for account `a` and the stored row it speaks of. */
  ghost predicate LineOf(l: Line, r: ChargeRow, a: string, invoices: map<string, InvoiceRow>) {
    Allocatable(r, a, invoices) && Matches(l, AsCharge(r))
  }

  ghost predicate HasRow(l: Line, rows: seq<ChargeRow>, a: string, invoices: map<string, InvoiceRow>) {
    exists k :: 0 <= k < |rows| && LineOf(l, rows[k], a, invoices)
  }

  ghost predicate LinesOfRows(lines: seq<Line>, rows: seq<ChargeRow>, a: string, invoices: map<string, InvoiceRow>) {
    && DistinctLines(lines)
    && forall l :: l in lines ==> HasRow(l, rows, a, invoices)
  }

  lemma {:induction false} AllocationOfRows(t: Tables, paymentId: string, strategy: Strategy, lines: seq<Line>)
    requires DistinctRows(t.charges) && paymentId in t.payments
    requires lines == AllocationFor(t, paymentId, strategy)
    ensures LinesOfRows(lines, t.charges, t.payments[paymentId].accountId, t.invoices)
  {
    var a := t.payments[paymentId].accountId;
    var open := FindOpenForAccount(t, a);
    OpenChargesAreOpenRows(t, a);
    AllocationLines(strategy, t.payments[paymentId].amount, open, lines);
    forall l | l in lines ensures HasRow(l, t.charges, a, t.invoices) {
      var c :| c in open && Matches(l, c);
      var r :| r in t.charges && Allocatable(r, a, t.invoices) && c == AsCharge(r);
      var k :| 0 <= k < |t.charges| && t.charges[k] == r;
      assert LineOf(l, t.charges[k], a, t.invoices);
    }
  }

  // ---------------------------------------------------------------- what settling does to one row

  /** What the code's order leaves of a row: a covered row is closed with its old paid amount. */
  function SettledRow(r: ChargeRow, lines: seq<Line>): ChargeRow {
    if !OpenStatus(r.status) then r
    else if r.id in PlannedIds(lines) then r.(status := PAID)
    else r.(paidAmount := r.paidAmount + AllocatedTo(lines, r.id))
  }

  function Incremented(r: ChargeRow, lines: seq<Line>): ChargeRow {
    if OpenStatus(r.status) then r.(paidAmount := r.paidAmount + AllocatedTo(lines, r.id)) else r
  }

  lemma {:induction false} IncrementsAddUp(rows: seq<ChargeRow>, lines: seq<Line>)
    requires forall l :: l in lines ==> l.amount >= 0
    ensures |UpdatePartialPaidAmounts(rows, lines)| == |rows|
    decreases |lines|
    ensures forall i :: 0 <= i < |rows| ==> UpdatePartialPaidAmounts(rows, lines)[i] == Incremented(rows[i], lines)
  {
    if lines == [] {
    } else {
      var l := lines[0];
      var next := if l.amount > 0 then Map(Increment(l.chargeLineId, l.amount), rows) else rows;
      IncrementsAddUp(next, lines[1..]);
    }
  }

  lemma {:induction false} SettleRowsRowwise(rows: seq<ChargeRow>, lines: seq<Line>)
    requires forall l :: l in lines ==> l.amount >= 0
    ensures |SettleRows(rows, lines)| == |rows|
    ensures forall i :: 0 <= i < |rows| ==> SettleRows(rows, lines)[i] == SettledRow(rows[i], lines)
  {
    IncrementsAddUp(MarkPaidBulk(rows, PlannedIds(lines)), lines);
  }

  // ---------------------------------------------------------------- the invariant

  /** What is still owed on a line of account `a`: its amount less everything ever applied to it. */
  function OwedBy(a: string, journal: seq<Entry>): ChargeRow -> int {
    (r: ChargeRow) => if r.accountId == a then r.amount - Applied(journal, r.id) else 0
  }

  function AppliedTowards(inv: string, journal: seq<Entry>): ChargeRow -> int {
    (r: ChargeRow) => if r.invoiceId == Some(inv) then Applied(journal, r.id) else 0
  }

  /** An open line shows exactly what was applied and is never settled in full; a line that an
      allocation closed was settled in full but still shows less; other lines were never touched. */
  ghost predicate RowOk(r: ChargeRow, journal: seq<Entry>) {
    var applied := Applied(journal, r.id);
    if OpenStatus(r.status) then r.paidAmount == applied >= 0 && (applied > 0 ==> applied < r.amount)
    else if applied == 0 then r.paidAmount == 0
    else r.status == PAID && 0 <= r.paidAmount < r.amount == applied
  }

  ghost predicate EntryKeysOk(e: Entry, t: Tables) {
    && e.accountId in t.accounts
    && (e.LegacyPaid? && e.invoiceId.Some? ==> e.invoiceId.value in t.invoices)
    && (e.Allocated? ==> e.paymentId in t.payments && t.payments[e.paymentId].stamped)
  }

  ghost predicate Unknown(id: string, rows: seq<ChargeRow>) { forall r :: r in rows ==> r.id != id }

  ghost predicate KeysOk(w: World) {
    var t := w.tables;
    && DistinctRows(t.charges) && "" !in t.invoices
    && (forall r :: r in t.charges ==>
          r.accountId in t.accounts && (r.invoiceId.Some? ==> r.invoiceId.value in t.invoices))
    && (forall p :: p in t.payments ==> t.payments[p].accountId in t.accounts)
    && (forall e :: e in w.journal ==> EntryKeysOk(e, t))
    && (forall id :: Unknown(id, t.charges) ==> Applied(w.journal, id) == 0)
  }

  ghost predicate RowsOk(w: World) { forall r :: r in w.tables.charges ==> RowOk(r, w.journal) }

  /** The account balance is what its lines still owe less the credit standing on it, and it departs
      from debits minus credits by the legacy postings alone. */
  ghost predicate AccountOk(account: Account, a: string, rows: seq<ChargeRow>, journal: seq<Entry>) {
    && account.balance == SumOf(rows, OwedBy(a, journal)) - Credit(journal, a)
    && account.balance - (account.totalDebits - account.totalCredits) == LegacyNet(journal, a)
  }

  /** An invoice's paid amount is what was applied to its lines plus legacy payments booked on it. */
  ghost predicate InvoiceOk(invoice: InvoiceRow, inv: string, rows: seq<ChargeRow>, journal: seq<Entry>) {
    invoice.paidAmount == SumOf(rows, AppliedTowards(inv, journal)) + Direct(journal, inv)
  }

  ghost predicate AccountsOk(w: World) {
    forall a :: a in w.tables.accounts ==> AccountOk(w.tables.accounts[a], a, w.tables.charges, w.journal)
  }

  ghost predicate InvoicesOk(w: World) {
    forall inv :: inv in w.tables.invoices ==> InvoiceOk(w.tables.invoices[inv], inv, w.tables.charges, w.journal)
  }

  /** Each payment is applied at most once. */
  ghost predicate AppliedOnce(w: World) {
    forall i, j :: 0 <= i < j < |w.journal| && w.journal[i].Allocated? && w.journal[j].Allocated?
      ==> w.journal[i].paymentId != w.journal[j].paymentId
  }

  ghost predicate Inv(w: World) {
    KeysOk(w) && RowsOk(w) && AccountsOk(w) && InvoicesOk(w) && AppliedOnce(w)
  }

  // ---------------------------------------------------------------- sums over one allocation

  function TakenFrom(a: string, lines: seq<Line>): ChargeRow -> int {
    (r: ChargeRow) => if r.accountId == a then -AllocatedTo(lines, r.id) else 0
  }

  function GivenTo(inv: string, lines: seq<Line>): ChargeRow -> int {
    (r: ChargeRow) => if r.invoiceId == Some(inv) then AllocatedTo(lines, r.id) else 0
  }

  lemma {:induction false} OneLineLands(rows: seq<ChargeRow>, l: Line, tail: seq<Line>, k: nat, i: nat)
    requires DistinctRows(rows) && k < |rows| && i < |rows| && l.chargeLineId == rows[k].id
    ensures AllocatedTo([l], rows[i].id) == if i == k then l.amount else 0
    ensures AllocatedTo([l] + tail, rows[i].id) == AllocatedTo([l], rows[i].id) + AllocatedTo(tail, rows[i].id)
  {
    assert [l][1..] == [] && ([l] + tail)[1..] == tail;
  }

  lemma {:induction false} NothingLands(rows: seq<ChargeRow>, a: string, inv: string)
    ensures SumOf(rows, TakenFrom(a, [])) == 0 && SumOf(rows, GivenTo(inv, [])) == 0
  {
    SumOfZero(rows, TakenFrom(a, []));
    SumOfZero(rows, GivenTo(inv, []));
  }

  /** Everything an allocation hands out lands on rows of its own account, and invoice by invoice it
      is the invoice impact. */
  lemma {:induction false} AllocationLands(rows: seq<ChargeRow>, lines: seq<Line>, owner: string,
                                           invoices: map<string, InvoiceRow>, a: string, inv: string)
    requires DistinctRows(rows) && inv != ""
    requires forall l :: l in lines ==> HasRow(l, rows, owner, invoices)
    ensures SumOf(rows, TakenFrom(a, lines)) == if a == owner then -TotalAllocated(lines) else 0
    ensures SumOf(rows, GivenTo(inv, lines)) == ImpactOn(lines, inv)
  {
    hide AllocatedTo, OutstandingFor;
    if lines == [] {
      NothingLands(rows, a, inv);
    } else {
      var l, tail := lines[0], lines[1..];
      assert lines == [l] + tail && HasRow(l, rows, owner, invoices);
      AllocationLands(rows, tail, owner, invoices, a, inv);
      var k :| 0 <= k < |rows| && LineOf(l, rows[k], owner, invoices);
      forall i | 0 <= i < |rows| { OneLineLands(rows, l, tail, k, i); }
      SumOfPointwise(rows, rows, TakenFrom(a, lines), TakenFrom(a, [l]), TakenFrom(a, tail));
      SumOfPointwise(rows, rows, GivenTo(inv, lines), GivenTo(inv, [l]), GivenTo(inv, tail));
      SumOfOne(rows, TakenFrom(a, [l]), k);
      SumOfOne(rows, GivenTo(inv, [l]), k);
    }
  }

  lemma {:induction false} AppliedGrows(journal: seq<Entry>, e: Entry, id: string)
    ensures Applied(journal + [e], id) == Applied(journal, id) + (if e.Allocated? then AllocatedTo(e.lines, id) else 0)
  {
    SumOfAppend(journal, [e], AppliedBy(id));
    assert [e][1..] == [];
  }

  lemma {:induction false} JournalGrows(journal: seq<Entry>, e: Entry, a: string, inv: string)
    ensures Credit(journal + [e], a) == Credit(journal, a) + CreditBy(a)(e)
    ensures LegacyNet(journal + [e], a) == LegacyNet(journal, a) + LegacyBy(a)(e)
    ensures Direct(journal + [e], inv) == Direct(journal, inv) + DirectBy(inv)(e)
  {
    SumOfAppend(journal, [e], CreditBy(a));
    SumOfAppend(journal, [e], LegacyBy(a));
    SumOfAppend(journal, [e], DirectBy(inv));
    assert [e][1..] == [];
  }

  // ---------------------------------------------------------------- the allocation step

  lemma {:induction false} SettledRowOk(r: ChargeRow, journal: seq<Entry>, lines: seq<Line>, e: Entry,
                                        rows: seq<ChargeRow>,
                     a: string, invoices: map<string, InvoiceRow>)
    requires r in rows && DistinctRows(rows) && LinesOfRows(lines, rows, a, invoices)
    requires RowOk(r, journal) && e.Allocated? && e.lines == lines
    ensures RowOk(SettledRow(r, lines), journal + [e])
  {
    AppliedGrows(journal, e, r.id);
    if l :| l in lines && l.chargeLineId == r.id {
      var i :| 0 <= i < |lines| && lines[i] == l;
      AllocatedToLine(lines, i);
      var k :| 0 <= k < |rows| && LineOf(l, rows[k], a, invoices);
      assert rows[k] == r;
      assert r.id in PlannedIds(lines) <==> Flips(l) by {
        if r.id in PlannedIds(lines) {
          var m :| m in lines && Flips(m) && m.chargeLineId == r.id;
          var j :| 0 <= j < |lines| && lines[j] == m;
          assert i == j;
        }
      }
    } else {
      AllocatedToStranger(lines, r.id);
    }
  }

  lemma LinesNonNegative(lines: seq<Line>, rows: seq<ChargeRow>, a: string, invoices: map<string, InvoiceRow>)
    requires LinesOfRows(lines, rows, a, invoices)
    ensures forall l :: l in lines ==> l.amount >= 0
  {
  }

  /** A planned row receives all it owes. */
  lemma {:induction false} PlannedRowIsMet(rows: seq<ChargeRow>, lines: seq<Line>, owner: string,
                                           invoices: map<string, InvoiceRow>, r: ChargeRow)
    requires DistinctRows(rows) && LinesOfRows(lines, rows, owner, invoices) && r in rows && r.id in PlannedIds(lines)
    ensures AllocatedTo(lines, r.id) == OutstandingFor(AsCharge(r)) > 0
  {
    var l :| l in lines && Flips(l) && l.chargeLineId == r.id;
    var i :| 0 <= i < |lines| && lines[i] == l;
    AllocatedToLine(lines, i);
    assert HasRow(l, rows, owner, invoices);
  }

  /** An allocation never changes what a row is, only its paid amount and status. */
  ghost predicate SameLine(r: ChargeRow, r': ChargeRow) {
    r'.id == r.id && r'.accountId == r.accountId && r'.invoiceId == r.invoiceId && r'.amount == r.amount
  }

  ghost predicate SameLines(rows: seq<ChargeRow>, rows': seq<ChargeRow>) {
    |rows'| == |rows| && forall i :: 0 <= i < |rows| ==> SameLine(rows[i], rows'[i])
  }

  lemma {:induction false} SettleKeepsLines(rows: seq<ChargeRow>, lines: seq<Line>)
    requires forall l :: l in lines ==> l.amount >= 0
    ensures SameLines(rows, SettleRows(rows, lines))
  {
    SettleRowsRowwise(rows, lines);
  }

  lemma {:induction false} AllocateKeepsRows(rows: seq<ChargeRow>, journal: seq<Entry>, e: Entry,
                                             invoices: map<string, InvoiceRow>)
    requires DistinctRows(rows) && e.Allocated? && LinesOfRows(e.lines, rows, e.accountId, invoices)
    requires forall r :: r in rows ==> RowOk(r, journal)
    ensures forall r' :: r' in SettleRows(rows, e.lines) ==> RowOk(r', journal + [e])
  {
    var rows' := SettleRows(rows, e.lines);
    LinesNonNegative(e.lines, rows, e.accountId, invoices);
    SettleRowsRowwise(rows, e.lines);
    forall r' | r' in rows' ensures RowOk(r', journal + [e]) {
      var i :| 0 <= i < |rows'| && rows'[i] == r';
      assert rows[i] in rows;
      SettledRowOk(rows[i], journal, e.lines, e, rows, e.accountId, invoices);
    }
  }

  lemma {:induction false} AllocateMovesOwed(rows: seq<ChargeRow>, journal: seq<Entry>, e: Entry, rows': seq<ChargeRow>,
                          invoices: map<string, InvoiceRow>, a: string, inv: string)
    requires DistinctRows(rows) && SameLines(rows, rows') && e.Allocated?
    requires LinesOfRows(e.lines, rows, e.accountId, invoices) && inv != ""
    ensures SumOf(rows', OwedBy(a, journal + [e]))
         == SumOf(rows, OwedBy(a, journal)) - (if a == e.accountId then TotalAllocated(e.lines) else 0)
    ensures SumOf(rows', AppliedTowards(inv, journal + [e]))
         == SumOf(rows, AppliedTowards(inv, journal)) + ImpactOn(e.lines, inv)
  {
    var j := journal + [e];
    forall i | 0 <= i < |rows|
      ensures Applied(j, rows'[i].id) == Applied(journal, rows[i].id) + AllocatedTo(e.lines, rows[i].id)
    {
      assert SameLine(rows[i], rows'[i]);
      AppliedGrows(journal, e, rows[i].id);
    }
    AllocationLands(rows, e.lines, e.accountId, invoices, a, inv);
    SumOfPointwise(rows', rows, OwedBy(a, j), OwedBy(a, journal), TakenFrom(a, e.lines));
    SumOfPointwise(rows', rows, AppliedTowards(inv, j), AppliedTowards(inv, journal), GivenTo(inv, e.lines));
  }

  lemma {:induction false} AllocateKeepsAccount(account: Account, a: string, rows: seq<ChargeRow>,
                                                journal: seq<Entry>, e: Entry,
                             rows': seq<ChargeRow>, invoices: map<string, InvoiceRow>)
    requires DistinctRows(rows) && SameLines(rows, rows') && e.Allocated?
    requires LinesOfRows(e.lines, rows, e.accountId, invoices)
    requires AccountOk(account, a, rows, journal)
    ensures AccountOk(if a == e.accountId then RecordPayment(account, e.amount) else account, a, rows', journal + [e])
  {
    AllocateMovesOwed(rows, journal, e, rows', invoices, a, "x");
    JournalGrows(journal, e, a, "x");
  }

  lemma {:induction false} AllocateKeepsInvoice(invoice: InvoiceRow, inv: string, rows: seq<ChargeRow>,
                                                journal: seq<Entry>, e: Entry,
                             rows': seq<ChargeRow>, invoices: map<string, InvoiceRow>)
    requires DistinctRows(rows) && SameLines(rows, rows') && e.Allocated? && inv != ""
    requires LinesOfRows(e.lines, rows, e.accountId, invoices)
    requires InvoiceOk(invoice, inv, rows, journal)
    ensures InvoiceOk(CreditInvoice(invoice, ImpactOn(e.lines, inv)), inv, rows', journal + [e])
  {
    AllocateMovesOwed(rows, journal, e, rows', invoices, "x", inv);
    JournalGrows(journal, e, "x", inv);
    ImpactNonNegative(e.lines, inv);
  }

  lemma {:induction false} ImpactNonNegative(lines: seq<Line>, inv: string)
    ensures ImpactOn(lines, inv) >= 0
  {
    if lines == [] {
    } else {
      ImpactNonNegative(lines[1..], inv);
    }
  }

  lemma SameLinesKeys(rows: seq<ChargeRow>, rows': seq<ChargeRow>)
    requires DistinctRows(rows) && SameLines(rows, rows')
    ensures DistinctRows(rows')
    ensures forall id :: Unknown(id, rows') ==> Unknown(id, rows)
    ensures forall r' :: r' in rows' ==> exists r :: r in rows && SameLine(r, r')
  {
  }

  lemma {:induction false} AllocateKeepsUnknown(rows: seq<ChargeRow>, journal: seq<Entry>, e: Entry,
                                                rows': seq<ChargeRow>,
                             invoices: map<string, InvoiceRow>, id: string)
    requires DistinctRows(rows) && SameLines(rows, rows') && e.Allocated?
    requires LinesOfRows(e.lines, rows, e.accountId, invoices)
    requires Unknown(id, rows') && Applied(journal, id) == 0
    ensures Applied(journal + [e], id) == 0
  {
    SameLinesKeys(rows, rows');
    AppliedGrows(journal, e, id);
    forall l | l in e.lines ensures l.chargeLineId != id {
      assert HasRow(l, rows, e.accountId, invoices);
    }
    AllocatedToStranger(e.lines, id);
  }

  lemma {:induction false} AllocateKeepsInvariant(w: World, paymentId: string, strategy: Strategy)
    requires Inv(w) && Accepts(w.tables, AllocateForPayment(paymentId, strategy))
    ensures Inv(Step(w, AllocateForPayment(paymentId, strategy)))
  {
    hide RowOk, AccountOk, InvoiceOk, SettleRows, AllocationFor;
    var t, lines := w.tables, AllocationFor(w.tables, paymentId, strategy);
    var p := t.payments[paymentId];
    var e := Allocated(paymentId, p.accountId, p.amount, lines);
    var w' := Step(w, AllocateForPayment(paymentId, strategy));
    var rows, rows' := t.charges, SettleRows(t.charges, lines);
    AllocationOfRows(t, paymentId, strategy, lines);
    LinesNonNegative(lines, rows, p.accountId, t.invoices);
    SettleKeepsLines(rows, lines);
    SameLinesKeys(rows, rows');
    AllocateKeepsRows(rows, w.journal, e, t.invoices);
    forall a | a in w'.tables.accounts ensures AccountOk(w'.tables.accounts[a], a, rows', w'.journal) {
      AllocateKeepsAccount(t.accounts[a], a, rows, w.journal, e, rows', t.invoices);
    }
    forall inv | inv in w'.tables.invoices ensures InvoiceOk(w'.tables.invoices[inv], inv, rows', w'.journal) {
      AllocateKeepsInvoice(t.invoices[inv], inv, rows, w.journal, e, rows', t.invoices);
    }
    forall i | 0 <= i < |w.journal| && w.journal[i].Allocated? ensures w.journal[i].paymentId != paymentId {
      assert w.journal[i] in w.journal && EntryKeysOk(w.journal[i], t);
    }
    forall x | x in w'.journal ensures EntryKeysOk(x, w'.tables) {
      if x != e { assert x in w.journal && EntryKeysOk(x, t); }
    }
    forall id | Unknown(id, rows') ensures Applied(w'.journal, id) == 0 {
      AllocateKeepsUnknown(rows, w.journal, e, rows', t.invoices, id);
    }
  }
}
