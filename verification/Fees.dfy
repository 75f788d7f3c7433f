/** The fee, the invoice that expresses it, and the ageing of invoices
    (server/src/utils/fee-calculation.ts, server/src/utils/invoice-composition.ts,
    server/src/repositories/financeOverview.repository.ts). Fees are exact rationals in pounds. */
module Fees {
  import opened Prelude
  import opened WeightedMean
  import Tab = LedgerTables

  // ---------------------------------------------------------------- tariff and overrides

  datatype FeeStatus = HOME | OVERSEAS | EU_TRANSITIONAL | ISLANDS | CHANNEL_ISLANDS

  datatype Level = LEVEL_3 | LEVEL_4 | LEVEL_5 | LEVEL_6 | LEVEL_7 | LEVEL_8

  datatype Mode = FULL_TIME | PART_TIME | SANDWICH | DISTANCE | BLOCK_RELEASE

  function DefaultRate(status: FeeStatus, level: Level): real {
    var home := status == HOME || status == ISLANDS || status == CHANNEL_ISLANDS;
    match level
    case LEVEL_7 => if home then 108.0 else 200.0
    case LEVEL_8 => if home then 75.0 else 180.0
    case _ => if home then 77.0 else 146.0
  }

  function DefaultMultiplier(mode: Mode): real {
    match mode
    case FULL_TIME => 1.0
    case PART_TIME => 0.5
    case SANDWICH => 1.0
    case DISTANCE => 0.8
    case BLOCK_RELEASE => 0.6
  }

  /** A negative override counts as none. */
  function Override(value: Option<real>, default: real): real {
    if value.Some? && value.value >= 0.0 then value.value else default
  }

  function ResolveMaxDiscountRatio(value: Option<real>): real {
    if value.Some? && 0.0 <= value.value <= 1.0 then value.value else 1.0
  }

  datatype FeeInput = FeeInput(
    level: Level,
    creditsTaken: real,
    feeStatus: FeeStatus,
    mode: Mode,
    bursaries: seq<real>,
    sponsors: seq<real>,
    rateOverride: Option<real>,
    multiplierOverride: Option<real>,
    maxDiscountRatio: Option<real>)

  // ---------------------------------------------------------------- the calculation

  /** Contributions that are not positive are skipped. */
  function PositiveSum(contributions: seq<real>): (sum: real)
    ensures sum >= 0.0
  {
    if contributions == [] then 0.0
    else (if contributions[0] > 0.0 then contributions[0] else 0.0) + PositiveSum(contributions[1..])
  }

  method SumContributions(contributions: seq<real>) returns (total: real)
    ensures total == PositiveSum(contributions)
  {
    total := 0.0;
    for i := 0 to |contributions|
      invariant total + PositiveSum(contributions[i..]) == PositiveSum(contributions)
    {
      assert contributions[i..][0] == contributions[i] && contributions[i..][1..] == contributions[i + 1..];
      if contributions[i] <= 0.0 { continue; }
      total := total + contributions[i];
    }
  }

  function MinReal(a: real, b: real): real { if a <= b then a else b }

  /** Base fee for the credits taken, times the mode multiplier, to the penny. */
  function Tuition(rate: real, credits: real, multiplier: real): real { Round2(rate * credits * multiplier) }

  function DiscountCap(total: real, ratio: real): real { Round2(total * ratio) }

  function Discount(total: real, raw: real, ratio: real): real { Round2(MinReal(raw, DiscountCap(total, ratio))) }

  function Net(total: real, discount: real): real { Round2(if total - discount > 0.0 then total - discount else 0.0) }

  function TotalFee(i: FeeInput): real {
    Tuition(Override(i.rateOverride, DefaultRate(i.feeStatus, i.level)),
            if i.creditsTaken > 0.0 then i.creditsTaken else 0.0,
            Override(i.multiplierOverride, DefaultMultiplier(i.mode)))
  }

  function Contributed(bursaries: seq<real>, sponsors: seq<real>): real {
    Round2(Round2(PositiveSum(bursaries)) + Round2(PositiveSum(sponsors)))
  }

  function DiscountAmount(i: FeeInput): real {
    Discount(TotalFee(i), Contributed(i.bursaries, i.sponsors), ResolveMaxDiscountRatio(i.maxDiscountRatio))
  }

  function FinalFee(i: FeeInput): real { Net(TotalFee(i), DiscountAmount(i)) }

  datatype Outcome = Outcome(totalFee: real, discountAmount: real, finalFee: real)

  method CalculateFee(i: FeeInput) returns (o: Outcome)
    ensures o == Outcome(TotalFee(i), DiscountAmount(i), FinalFee(i))
    ensures o.finalFee + o.discountAmount == o.totalFee && 0.0 <= o.discountAmount <= o.totalFee
  {
    var bursaries := SumContributions(i.bursaries);
    var sponsors := SumContributions(i.sponsors);
    var totalFee := TotalFee(i);
    var rawDiscount := Round2(Round2(bursaries) + Round2(sponsors));
    var discount := Discount(totalFee, rawDiscount, ResolveMaxDiscountRatio(i.maxDiscountRatio));
    FeeConserves(i);
    o := Outcome(totalFee, discount, Net(totalFee, discount));
  }

  // ---------------------------------------------------------------- conservation

  /** A whole number of pennies. */
  predicate OnGrid(x: real) { x == Hundredths(x) as real / 100.0 }

  lemma {:induction false} RoundedIsOnGrid(x: real)
    ensures OnGrid(Round2(x)) && Round2(Round2(x)) == Round2(x)
  {
    Round2OnGrid(Hundredths(x));
  }

  lemma {:induction false} GridDifference(a: real, b: real)
    requires OnGrid(a) && OnGrid(b)
    ensures Round2(a - b) == a - b
  {
    var k := Hundredths(a) - Hundredths(b);
    assert a - b == k as real / 100.0;
    Round2OnGrid(k);
  }

  lemma RoundNonNegative(x: real)
    requires x >= 0.0
    ensures Round2(x) >= 0.0
  {
  }

  lemma ProductNonNegative(a: real, b: real)
    requires a >= 0.0 && b >= 0.0
    ensures a * b >= 0.0
  {
  }

  lemma {:induction false} TuitionNonNegative(rate: real, credits: real, multiplier: real)
    requires rate >= 0.0 && credits >= 0.0 && multiplier >= 0.0
    ensures Tuition(rate, credits, multiplier) >= 0.0 && OnGrid(Tuition(rate, credits, multiplier))
  {
    ProductNonNegative(rate, credits);
    ProductNonNegative(rate * credits, multiplier);
    RoundNonNegative(rate * credits * multiplier);
    RoundedIsOnGrid(rate * credits * multiplier);
  }

  lemma {:induction false} CapWithinTotal(total: real, ratio: real)
    requires total >= 0.0 && OnGrid(total) && 0.0 <= ratio <= 1.0
    ensures 0.0 <= DiscountCap(total, ratio) <= total && OnGrid(DiscountCap(total, ratio))
  {
    ProductNonNegative(total, ratio);
    ScaleLeq(ratio, 1.0, total);
    var share := total * ratio;
    assert 0.0 <= share <= total;
    RoundNonNegative(share);
    Round2Monotone(share, total);
    Round2OnGrid(Hundredths(total));
    RoundedIsOnGrid(share);
  }

  /** The discount is the smaller of what was contributed and the cap, and what it takes off the total
      is exactly what remains to pay. */
  lemma {:induction false} DiscountLaws(total: real, raw: real, ratio: real)
    requires total >= 0.0 && OnGrid(total) && raw >= 0.0 && OnGrid(raw) && 0.0 <= ratio <= 1.0
    ensures var discount := Discount(total, raw, ratio);
      && discount == MinReal(raw, DiscountCap(total, ratio))
      && 0.0 <= discount <= total
      && Net(total, discount) + discount == total && OnGrid(Net(total, discount))
  {
    CapWithinTotal(total, ratio);
    var discount := MinReal(raw, DiscountCap(total, ratio));
    Round2OnGrid(Hundredths(discount));
    GridDifference(total, discount);
    RoundedIsOnGrid(total - discount);
    Round2OnGrid(0);
  }

  lemma {:induction false} ContributedNonNegative(bursaries: seq<real>, sponsors: seq<real>)
    ensures Contributed(bursaries, sponsors) >= 0.0 && OnGrid(Contributed(bursaries, sponsors))
  {
    var b, s := PositiveSum(bursaries), PositiveSum(sponsors);
    RoundNonNegative(b);
    RoundNonNegative(s);
    RoundNonNegative(Round2(b) + Round2(s));
    RoundedIsOnGrid(Round2(b) + Round2(s));
  }

  /** The default tariff in whole credits: pounds per credit by where the student is charged from and the
      level, times the part of a full-time fee that the mode pays; no rounding is lost. */
  lemma {:induction false} DefaultTariff(i: FeeInput, credits: nat)
    requires i.creditsTaken == credits as real && i.rateOverride.None? && i.multiplierOverride.None?
    ensures var home := i.feeStatus != OVERSEAS && i.feeStatus != EU_TRANSITIONAL;
      var perCredit := if i.level == LEVEL_7 then (if home then 108 else 200)
                       else if i.level == LEVEL_8 then (if home then 75 else 180)
                       else if home then 77 else 146;
      var tenths := if i.mode == PART_TIME then 5 else if i.mode == DISTANCE then 8
                    else if i.mode == BLOCK_RELEASE then 6 else 10;
      TotalFee(i) == (credits * perCredit * tenths) as real / 10.0
  {
    hide Round2, Tuition;
    var home := i.feeStatus != OVERSEAS && i.feeStatus != EU_TRANSITIONAL;
    var perCredit := if i.level == LEVEL_7 then (if home then 108 else 200)
                     else if i.level == LEVEL_8 then (if home then 75 else 180)
                     else if home then 77 else 146;
    var tenths := if i.mode == PART_TIME then 5 else if i.mode == DISTANCE then 8
                  else if i.mode == BLOCK_RELEASE then 6 else 10;
    TuitionInTenths(credits, perCredit, tenths);
    assert DefaultRate(i.feeStatus, i.level) == perCredit as real;
    assert DefaultMultiplier(i.mode) == tenths as real / 10.0;
  }

  lemma {:induction false} TuitionInTenths(credits: nat, perCredit: int, tenths: int)
    ensures Tuition(perCredit as real, credits as real, tenths as real / 10.0)
         == (credits * perCredit * tenths) as real / 10.0
  {
    hide Tuition;
    ProductOfReals(credits, perCredit, tenths);
    WholePennies(perCredit as real, credits as real, tenths as real / 10.0, credits * perCredit * tenths * 10);
  }

  lemma ProductOfReals(a: int, b: int, c: int)
    ensures b as real * a as real * (c as real / 10.0) == (a * b * c * 10) as real / 100.0
  {
  }

  lemma {:induction false} WholePennies(rate: real, credits: real, multiplier: real, pennies: int)
    requires rate * credits * multiplier == pennies as real / 100.0
    ensures Tuition(rate, credits, multiplier) == pennies as real / 100.0
  {
    Round2OnGrid(pennies);
  }

  /** Overrides that are given and not negative replace the tariff; fewer than no credits count as none. */
  lemma {:induction false} OverridesDecide(i: FeeInput, rate: real, credits: real, multiplier: real)
    requires rate >= 0.0 && multiplier >= 0.0
    requires if i.creditsTaken < 0.0 then credits == 0.0 else credits == i.creditsTaken
    ensures TotalFee(i.(rateOverride := Some(rate), multiplierOverride := Some(multiplier)))
         == Round2(rate * credits * multiplier)
    ensures forall x, y :: x < 0.0 && y < 0.0 ==>
              TotalFee(i.(rateOverride := Some(x), multiplierOverride := Some(y)))
              == TotalFee(i.(rateOverride := None, multiplierOverride := None))
  {
    TuitionIs(rate, credits, multiplier);
    hide Tuition, Round2, DefaultRate, DefaultMultiplier;
    assert TotalFee(i.(rateOverride := Some(rate), multiplierOverride := Some(multiplier)))
        == Tuition(rate, credits, multiplier);
  }

  lemma TuitionIs(rate: real, credits: real, multiplier: real)
    ensures Tuition(rate, credits, multiplier) == Round2(rate * credits * multiplier)
  {
  }

  /** A single contribution counts if it is positive, and contributions in whole pennies are added exactly. */
  lemma {:induction false} ContributionsAddUp(x: real, bursaries: seq<real>, sponsors: seq<real>)
    ensures PositiveSum([x]) == if x > 0.0 then x else 0.0
    ensures OnGrid(PositiveSum(bursaries)) && OnGrid(PositiveSum(sponsors)) ==>
              Contributed(bursaries, sponsors) == PositiveSum(bursaries) + PositiveSum(sponsors)
    ensures -0.015 <= Contributed(bursaries, sponsors) - PositiveSum(bursaries) - PositiveSum(sponsors) <= 0.015
  {
    var b, s := PositiveSum(bursaries), PositiveSum(sponsors);
    Round2Error(b);
    Round2Error(s);
    Round2Error(Round2(b) + Round2(s));
    Round2OnGrid(Hundredths(b));
    Round2OnGrid(Hundredths(s));
    Round2OnGrid(Hundredths(b) + Hundredths(s));
    assert [x][1..] == [];
  }

  /** Every fee: what is discounted and what remains make up the total. */
  lemma {:induction false} FeeConserves(i: FeeInput)
    ensures FinalFee(i) + DiscountAmount(i) == TotalFee(i)
    ensures 0.0 <= DiscountAmount(i) <= TotalFee(i) && OnGrid(FinalFee(i))
    ensures DiscountAmount(i) == MinReal(Contributed(i.bursaries, i.sponsors),
                                         DiscountCap(TotalFee(i), ResolveMaxDiscountRatio(i.maxDiscountRatio)))
  {
    hide Tuition, Round2, Contributed, Discount, Net, OnGrid, DiscountCap;
    TuitionNonNegative(Override(i.rateOverride, DefaultRate(i.feeStatus, i.level)),
                       if i.creditsTaken > 0.0 then i.creditsTaken else 0.0,
                       Override(i.multiplierOverride, DefaultMultiplier(i.mode)));
    ContributedNonNegative(i.bursaries, i.sponsors);
    DiscountLaws(TotalFee(i), Contributed(i.bursaries, i.sponsors), ResolveMaxDiscountRatio(i.maxDiscountRatio));
  }

  /** The discount is what was contributed, up to the given part of the total. */
  lemma {:induction false} DiscountUpToRatio(i: FeeInput, ratio: real)
    requires 0.0 <= ratio <= 1.0 && i.maxDiscountRatio == Some(ratio)
    ensures DiscountAmount(i) == MinReal(Contributed(i.bursaries, i.sponsors), Round2(TotalFee(i) * ratio))
  {
    FeeConserves(i);
    CapIs(TotalFee(i), ratio);
  }

  /** Without a ratio, or with one that is not between nothing and one, it may be the whole total. */
  lemma {:induction false} DiscountUpToTotal(i: FeeInput)
    requires i.maxDiscountRatio.None? || i.maxDiscountRatio.value < 0.0 || i.maxDiscountRatio.value > 1.0
    ensures DiscountAmount(i) == MinReal(Contributed(i.bursaries, i.sponsors), TotalFee(i))
  {
    FeeConserves(i);
    CapIs(TotalFee(i), 1.0);
    RoundedIsOnGrid(TotalFee(i));
  }

  lemma CapIs(total: real, ratio: real)
    ensures DiscountCap(total, ratio) == Round2(total * ratio)
    ensures ratio == 1.0 ==> total * ratio == total
  {
  }

  lemma {:induction false} ContributedMonotone(bursaries: seq<real>, sponsors: seq<real>, bursaries': seq<real>,
                                               sponsors': seq<real>)
    requires PositiveSum(bursaries) <= PositiveSum(bursaries') && PositiveSum(sponsors) <= PositiveSum(sponsors')
    ensures Contributed(bursaries, sponsors) <= Contributed(bursaries', sponsors')
  {
    Round2Monotone(PositiveSum(bursaries), PositiveSum(bursaries'));
    Round2Monotone(PositiveSum(sponsors), PositiveSum(sponsors'));
    Round2Monotone(Round2(PositiveSum(bursaries)) + Round2(PositiveSum(sponsors)),
                   Round2(PositiveSum(bursaries')) + Round2(PositiveSum(sponsors')));
  }

  lemma SameTotal(i: FeeInput, bursaries: seq<real>, sponsors: seq<real>)
    ensures TotalFee(i.(bursaries := bursaries, sponsors := sponsors)) == TotalFee(i)
  {
    hide Tuition;
  }

  /** More in contributions, however they are listed, never raises the fee. */
  lemma {:induction false} MoreContributionsNeverCost(i: FeeInput, bursaries: seq<real>, sponsors: seq<real>)
    requires PositiveSum(i.bursaries) <= PositiveSum(bursaries) && PositiveSum(i.sponsors) <= PositiveSum(sponsors)
    ensures FinalFee(i.(bursaries := bursaries, sponsors := sponsors)) <= FinalFee(i)
  {
    hide Contributed, Round2, DiscountCap, OnGrid, FinalFee, DiscountAmount, PositiveSum, TotalFee;
    var more := i.(bursaries := bursaries, sponsors := sponsors);
    ContributedMonotone(i.bursaries, i.sponsors, bursaries, sponsors);
    FeeConserves(i);
    FeeConserves(more);
    SameTotal(i, bursaries, sponsors);
  }

  lemma {:induction false} PositiveSumAppend(a: seq<real>, b: seq<real>)
    ensures PositiveSum(a + b) == PositiveSum(a) + PositiveSum(b)
  {
    if a == [] {
      assert a + b == b;
    } else {
      assert (a + b)[1..] == a[1..] + b;
      PositiveSumAppend(a[1..], b);
    }
  }

  lemma {:induction false} PositiveSumPermutation(a: seq<real>, b: seq<real>)
    requires multiset(a) == multiset(b)
    ensures PositiveSum(a) == PositiveSum(b)
  {
    if a == [] {
      assert |b| == |multiset(b)| == 0;
    } else {
      var k := FirstInPermutation(a, b);
      PositiveSumPermutation(a[1..], b[..k] + b[k + 1..]);
      PositiveSumAppend(b[..k] + [a[0]], b[k + 1..]);
      PositiveSumAppend(b[..k], [a[0]]);
      PositiveSumAppend(b[..k], b[k + 1..]);
      PositiveSumAppend([a[0]], a[1..]);
      assert [a[0]] + a[1..] == a;
    }
  }

  /** In particular adding contributions of either kind never raises the fee and reordering them never
      changes it. */
  lemma {:induction false} AddingAndReordering(i: FeeInput, moreBursaries: seq<real>, moreSponsors: seq<real>,
                                               bursaries: seq<real>, sponsors: seq<real>)
    requires multiset(i.bursaries) == multiset(bursaries) && multiset(i.sponsors) == multiset(sponsors)
    ensures FinalFee(i.(bursaries := i.bursaries + moreBursaries, sponsors := i.sponsors + moreSponsors)) <= FinalFee(i)
    ensures FinalFee(i.(bursaries := bursaries, sponsors := sponsors)) == FinalFee(i)
  {
    hide FinalFee, PositiveSum;
    PositiveSumAppend(i.bursaries, moreBursaries);
    PositiveSumAppend(i.sponsors, moreSponsors);
    MoreContributionsNeverCost(i, i.bursaries + moreBursaries, i.sponsors + moreSponsors);
    PositiveSumPermutation(i.bursaries, bursaries);
    PositiveSumPermutation(i.sponsors, sponsors);
    MoreContributionsNeverCost(i, bursaries, sponsors);
    MoreContributionsNeverCost(i.(bursaries := bursaries, sponsors := sponsors), i.bursaries, i.sponsors);
  }

  // ---------------------------------------------------------------- the invoice

  datatype InvoiceLine = InvoiceLine(amount: real, dueDate: int)

  datatype Invoice = Invoice(totalAmount: real, issueDate: int, dueDate: int, lines: seq<InvoiceLine>)

  const DAY_MS := 24 * 60 * 60 * 1000

  /** One tuition line for the fee, due on the date given or the default number of days after issue. */
  function ComposeInvoice(finalFee: real, issueDate: int, dueDate: Option<int>, defaultDueDays: int): Invoice {
    var due := if dueDate.Some? then dueDate.value else issueDate + defaultDueDays * DAY_MS;
    Invoice(Round2(finalFee), issueDate, due, [InvoiceLine(Round2(finalFee), due)])
  }

  function LedgerLine(id: string, line: InvoiceLine, createdAt: int): Tab.NewLine {
    Tab.NewLine(id, Hundredths(line.amount), Tab.PENDING, Some(line.dueDate), createdAt)
  }

  /** From assessment to account: raising the composed invoice moves the student's balance by exactly
      the final fee. */
  lemma {:induction false} InvoicePostsFinalFee(w: Tab.World, i: FeeInput, a: string, inv: string, line: string,
                                                issueDate: int,
                                                 dueDate: Option<int>, defaultDueDays: int, status: Tab.InvoiceStatus)
    ensures var fee := FinalFee(i);
      var invoice := ComposeInvoice(fee, issueDate, dueDate, defaultDueDays);
      var e := Tab.CreateWithLines(a, inv, Hundredths(invoice.totalAmount), status,
                                   [LedgerLine(line, invoice.lines[0], issueDate)], true);
      && invoice.totalAmount == fee && |invoice.lines| == 1
      && (Tab.Accepts(w.tables, e) ==>
            && a in Tab.Step(w, e).tables.accounts
            && (Tab.Step(w, e).tables.accounts[a].balance - w.tables.accounts[a].balance) as real / 100.0 == fee
            && Tab.Step(w, e).tables.invoices[inv].totalAmount as real / 100.0 == fee
            && Tab.Step(w, e).tables.charges
               == w.tables.charges
                  + [Tab.ChargeRow(line, a, Some(inv), Hundredths(fee), 0, Tab.PENDING,
                                   Some(match dueDate case Some(d) => d
                                                      case None => issueDate + 86400000 * defaultDueDays), issueDate)])
  {
    var fee := FinalFee(i);
    FeeConserves(i);
    Round2OnGrid(Hundredths(fee));
    var l := LedgerLine(line, ComposeInvoice(fee, issueDate, dueDate, defaultDueDays).lines[0], issueDate);
    assert [l][1..] == [];
    assert SumOf([l], Tab.NewLineAmount) == l.amount;
  }

  // ---------------------------------------------------------------- ageing

  datatype Bucket = CURRENT | D1_30 | D31_60 | D61_90 | D90_PLUS

  const BUCKETS := [CURRENT, D1_30, D31_60, D61_90, D90_PLUS]

  datatype Range = Range(bucket: Bucket, minDays: Option<int>, maxDays: Option<int>)

  /** Inclusive lower and exclusive upper bounds; a missing bound is infinite. */
  const BOUNDARIES := [
    Range(CURRENT, None, Some(1)),
    Range(D1_30, Some(1), Some(31)),
    Range(D31_60, Some(31), Some(61)),
    Range(D61_90, Some(61), Some(91)),
    Range(D90_PLUS, Some(91), None)]

  predicate InRange(r: Range, days: int) {
    (r.minDays.None? || days >= r.minDays.value) && (r.maxDays.None? || days < r.maxDays.value)
  }

  /** The first range that matches, the first range of all when none does. */
  function FindBucket(ranges: seq<Range>, days: int): Bucket {
    if ranges == [] then BOUNDARIES[0].bucket
    else if InRange(ranges[0], days) then ranges[0].bucket
    else FindBucket(ranges[1..], days)
  }

  /** The ranges partition the integers: each age lies in exactly one, which is the one found. */
  lemma {:induction false} BoundariesPartition(days: int, k: nat)
    requires k < |BOUNDARIES|
    ensures InRange(BOUNDARIES[k], days) <==> FindBucket(BOUNDARIES, days) == BOUNDARIES[k].bucket
  {
    assert BOUNDARIES[1..][1..] == BOUNDARIES[2..] && BOUNDARIES[2..][1..] == BOUNDARIES[3..];
    assert BOUNDARIES[3..][1..] == BOUNDARIES[4..] && BOUNDARIES[4..][1..] == [];
    assert FindBucket(BOUNDARIES[3..], days)
        == if InRange(BOUNDARIES[3], days) then D61_90 else FindBucket(BOUNDARIES[4..], days);
    assert FindBucket(BOUNDARIES[1..], days)
        == if InRange(BOUNDARIES[1], days) then D1_30 else FindBucket(BOUNDARIES[2..], days);
  }

  /** An open invoice as the ageing query returns it, in pennies and milliseconds. */
  datatype OpenInvoice = OpenInvoice(dueDate: int, totalAmount: int, paidAmount: int)

  function Outstanding(i: OpenInvoice): int { Max(0, i.totalAmount - i.paidAmount) }

  function AgeDays(i: OpenInvoice, asOf: int): int { (asOf - i.dueDate) / DAY_MS }

  function BucketOf(i: OpenInvoice, asOf: int): Bucket { FindBucket(BOUNDARIES, AgeDays(i, asOf)) }

  /** Where a bucket begins, in days after the due date. */
  function FirstDay(b: Bucket): int {
    match b case CURRENT => 0 case D1_30 => 1 case D31_60 => 31 case D61_90 => 61 case D90_PLUS => 91
  }

  function NextBucket(b: Bucket): Bucket {
    match b case CURRENT => D1_30 case D1_30 => D31_60 case D31_60 => D61_90 case _ => D90_PLUS
  }

  /** An invoice is in a bucket exactly when that many whole days of 86400000 milliseconds have passed since it
      was due; not yet due is current, and only the first and the last bucket are open-ended. */
  lemma {:induction false} BucketByDueDate(i: OpenInvoice, asOf: int, b: Bucket)
    ensures BucketOf(i, asOf) == b
       <==> && (b == CURRENT || asOf >= i.dueDate + FirstDay(b) * 86400000)
            && (b == D90_PLUS || asOf < i.dueDate + FirstDay(NextBucket(b)) * 86400000)
  {
    var k := match b case CURRENT => 0 case D1_30 => 1 case D31_60 => 2 case D61_90 => 3 case D90_PLUS => 4;
    BoundariesPartition(AgeDays(i, asOf), k);
  }

  /** An invoice adds what it is short of its total to its bucket, and nothing when it is paid in full. */
  lemma {:induction false} OneInvoiceAges(i: OpenInvoice, asOf: int, b: Bucket)
    ensures var owed := if i.paidAmount < i.totalAmount && BucketOf(i, asOf) == b
                        then i.totalAmount - i.paidAmount else 0;
      && SumOf([i], OutstandingIn(b, asOf)) == owed && SumOf([i], CountIn(b, asOf)) == (if owed > 0 then 1 else 0)
  {
    assert [i][1..] == [];
    assert SumOf([i], OutstandingIn(b, asOf)) == OutstandingIn(b, asOf)(i) + SumOf([], OutstandingIn(b, asOf));
    assert SumOf([i], CountIn(b, asOf)) == CountIn(b, asOf)(i) + SumOf([], CountIn(b, asOf));
  }

  datatype BucketTotal = BucketTotal(count: nat, outstanding: int)

  function CountIn(b: Bucket, asOf: int): OpenInvoice -> int {
    (i: OpenInvoice) => if Outstanding(i) > 0 && BucketOf(i, asOf) == b then 1 else 0
  }

  function OutstandingIn(b: Bucket, asOf: int): OpenInvoice -> int {
    (i: OpenInvoice) => if BucketOf(i, asOf) == b then Outstanding(i) else 0
  }

  function IsOutstanding(i: OpenInvoice): int { if Outstanding(i) > 0 then 1 else 0 }

  /** Each bucket holds exactly the outstanding invoices of its age, and the headline figures are the
      sums over the buckets. */
  ghost predicate IsAgeing(buckets: map<Bucket, BucketTotal>, totalOutstanding: int, totalOpen: nat,
                           invoices: seq<OpenInvoice>, asOf: int) {
    && (forall b :: b in BUCKETS <==> b in buckets)
    && (forall b :: b in buckets ==>
          && buckets[b].count == SumOf(invoices, CountIn(b, asOf))
          && buckets[b].outstanding == SumOf(invoices, OutstandingIn(b, asOf)))
    && totalOutstanding == SumOf(invoices, Outstanding) && totalOpen == SumOf(invoices, IsOutstanding)
  }

  lemma {:induction false} AgeingGrows(invoices: seq<OpenInvoice>, i: OpenInvoice, asOf: int, b: Bucket)
    ensures SumOf(invoices + [i], CountIn(b, asOf)) == SumOf(invoices, CountIn(b, asOf)) + CountIn(b, asOf)(i)
    ensures SumOf(invoices + [i], OutstandingIn(b, asOf))
         == SumOf(invoices, OutstandingIn(b, asOf)) + OutstandingIn(b, asOf)(i)
    ensures SumOf(invoices + [i], Outstanding) == SumOf(invoices, Outstanding) + Outstanding(i)
    ensures SumOf(invoices + [i], IsOutstanding) == SumOf(invoices, IsOutstanding) + IsOutstanding(i)
  {
    SumOfAppend(invoices, [i], CountIn(b, asOf));
    SumOfAppend(invoices, [i], OutstandingIn(b, asOf));
    SumOfAppend(invoices, [i], Outstanding);
    SumOfAppend(invoices, [i], IsOutstanding);
    assert [i][1..] == [];
  }

  /** One more invoice: it counts in its own bucket and in the totals, if anything is owed on it. */
  lemma {:induction false} AgeingStep(buckets: map<Bucket, BucketTotal>, totalOutstanding: int, totalOpen: nat,
                                      invoices: seq<OpenInvoice>, i: OpenInvoice, asOf: int)
    requires IsAgeing(buckets, totalOutstanding, totalOpen, invoices, asOf)
    ensures BucketOf(i, asOf) in buckets
    ensures var o, b := Outstanding(i), BucketOf(i, asOf);
      if o <= 0 then IsAgeing(buckets, totalOutstanding, totalOpen, invoices + [i], asOf)
      else IsAgeing(buckets[b := BucketTotal(buckets[b].count + 1, buckets[b].outstanding + o)],
                    totalOutstanding + o, totalOpen + 1, invoices + [i], asOf)
  {
    AllBuckets(BucketOf(i, asOf));
    AgeingGrows(invoices, i, asOf, CURRENT);
    forall b
      ensures SumOf(invoices + [i], CountIn(b, asOf)) == SumOf(invoices, CountIn(b, asOf)) + CountIn(b, asOf)(i)
      ensures SumOf(invoices + [i], OutstandingIn(b, asOf))
           == SumOf(invoices, OutstandingIn(b, asOf)) + OutstandingIn(b, asOf)(i)
    {
      AgeingGrows(invoices, i, asOf, b);
    }
  }

  method GetAgeing(invoices: seq<OpenInvoice>, asOf: int)
    returns (buckets: map<Bucket, BucketTotal>, totalOutstanding: int, totalOpen: nat)
    ensures IsAgeing(buckets, totalOutstanding, totalOpen, invoices, asOf)
  {
    buckets := map b | b in BUCKETS :: BucketTotal(0, 0);
    totalOutstanding, totalOpen := 0, 0;
    for k := 0 to |invoices|
      invariant IsAgeing(buckets, totalOutstanding, totalOpen, invoices[..k], asOf)
    {
      var i := invoices[k];
      AgeingStep(buckets, totalOutstanding, totalOpen, invoices[..k], i, asOf);
      assert invoices[..k + 1] == invoices[..k] + [i];
      var outstanding := Outstanding(i);
      if outstanding <= 0 { continue; }
      var bucket := BucketOf(i, asOf);
      var t := buckets[bucket];
      buckets := buckets[bucket := BucketTotal(t.count + 1, t.outstanding + outstanding)];
      totalOutstanding := totalOutstanding + outstanding;
      totalOpen := totalOpen + 1;
    }
    assert invoices[..|invoices|] == invoices;
  }

  lemma AllBuckets(b: Bucket)
    ensures b in BUCKETS
  {
  }

  /** Counts and amounts of the five buckets add up to the totals. */
  lemma {:induction false} BucketsSumToTotals(invoices: seq<OpenInvoice>, asOf: int)
    ensures SumOf(invoices, CountIn(CURRENT, asOf)) + SumOf(invoices, CountIn(D1_30, asOf))
            + SumOf(invoices, CountIn(D31_60, asOf)) + SumOf(invoices, CountIn(D61_90, asOf))
            + SumOf(invoices, CountIn(D90_PLUS, asOf)) == SumOf(invoices, IsOutstanding)
    ensures SumOf(invoices, OutstandingIn(CURRENT, asOf)) + SumOf(invoices, OutstandingIn(D1_30, asOf))
            + SumOf(invoices, OutstandingIn(D31_60, asOf)) + SumOf(invoices, OutstandingIn(D61_90, asOf))
            + SumOf(invoices, OutstandingIn(D90_PLUS, asOf)) == SumOf(invoices, Outstanding)
  {
    if invoices == [] {
    } else {
      BucketsSumToTotals(invoices[1..], asOf);
    }
  }
}
