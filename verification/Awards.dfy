/** From assessment marks to the award: the module aggregate (server/src/utils/marks-aggregation.ts)
    and the classification of the credit-weighted average (server/src/utils/award-classification.ts).
    Marks, weightings and credits are exact rationals. */
module Awards {
  import opened Prelude
  import opened WeightedMean

  // ---------------------------------------------------------------- one module

  datatype Attempt = Attempt(assessmentId: string, finalMark: Option<real>, maxMark: real, weighting: real)

  /** Marked, with a positive maximum and a positive weighting. */
  predicate Contributes(a: Attempt) { a.finalMark.Some? && a.maxMark > 0.0 && a.weighting > 0.0 }

  function Percentage(a: Attempt): real
    requires Contributes(a)
  {
    a.finalMark.value / a.maxMark * 100.0
  }

  function AttemptTerms(attempts: seq<Attempt>): (terms: seq<Term>)
    ensures Positive(terms)
  {
    if attempts == [] then []
    else
      var a, rest := attempts[0], AttemptTerms(attempts[1..]);
      if Contributes(a) then [Term(Percentage(a), a.weighting)] + rest else rest
  }

  /** The weighted mean percentage before rounding. */
  function ExactAggregate(attempts: seq<Attempt>): Option<real> {
    var terms := AttemptTerms(attempts);
    if terms == [] then None else Some(Mean(terms))
  }

  function Aggregate(attempts: seq<Attempt>): Option<real> {
    match ExactAggregate(attempts)
    case None => None
    case Some(mean) => Some(Round2(mean))
  }

  function Missing(attempts: seq<Attempt>): seq<string> {
    if attempts == [] then []
    else (if attempts[0].finalMark.None? then [attempts[0].assessmentId] else []) + Missing(attempts[1..])
  }

  datatype AggregationResult = AggregationResult(
    aggregatePercentage: Option<real>,
    totalWeighting: real,
    componentCount: nat,
    contributingCount: nat,
    isComplete: bool,
    missingAssessmentIds: seq<string>)

  /** What the attempt at `i` adds to each running value. */
  lemma AttemptStep(attempts: seq<Attempt>, i: nat)
    requires i < |attempts|
    ensures var a, here, rest := attempts[i], AttemptTerms(attempts[i..]), AttemptTerms(attempts[i + 1..]);
      && (!Contributes(a) ==> here == rest)
      && (Contributes(a) ==>
            && Total(here) == Percentage(a) * a.weighting + Total(rest)
            && Weights(here) == a.weighting + Weights(rest) && |here| == 1 + |rest|)
      && Missing(attempts[i..]) == (if a.finalMark.None? then [a.assessmentId] else []) + Missing(attempts[i + 1..])
  {
  }

  lemma NoAttempts()
    ensures AttemptTerms([]) == [] && Missing([]) == [] && Total([]) == Weights([]) == 0.0
  {
  }

  method AggregateMarks(attempts: seq<Attempt>) returns (r: AggregationResult)
    ensures r.aggregatePercentage == Aggregate(attempts)
    ensures r.totalWeighting == Weights(AttemptTerms(attempts))
    ensures r.componentCount == |attempts| && r.contributingCount == |AttemptTerms(attempts)|
    ensures r.isComplete <==> attempts != [] && forall a :: a in attempts ==> Contributes(a)
    ensures r.missingAssessmentIds == Missing(attempts)
  {
    hide AttemptTerms, Total, Weights, Missing;
    if |attempts| == 0 {
      NoAttempts();
      return AggregationResult(None, 0.0, 0, 0, false, []);
    }
    var weightedSum, totalWeighting, contributingCount := 0.0, 0.0, 0;
    var missing: seq<string> := [];
    assert attempts[0..] == attempts;
    for i := 0 to |attempts|
      invariant weightedSum + Total(AttemptTerms(attempts[i..])) == Total(AttemptTerms(attempts))
      invariant totalWeighting + Weights(AttemptTerms(attempts[i..])) == Weights(AttemptTerms(attempts))
      invariant contributingCount + |AttemptTerms(attempts[i..])| == |AttemptTerms(attempts)|
      invariant missing + Missing(attempts[i..]) == Missing(attempts)
    {
      var a := attempts[i];
      AttemptStep(attempts, i);
      if a.finalMark.None? {
        missing := missing + [a.assessmentId];
        continue;
      }
      if a.maxMark <= 0.0 { continue; }
      if a.weighting <= 0.0 { continue; }
      var percentage := a.finalMark.value / a.maxMark * 100.0;
      weightedSum := weightedSum + percentage * a.weighting;
      totalWeighting := totalWeighting + a.weighting;
      contributingCount := contributingCount + 1;
    }
    assert attempts[|attempts|..] == [];
    NoAttempts();
    WeightsPositive(AttemptTerms(attempts));
    CompleteIff(attempts);
    var aggregate := if totalWeighting > 0.0 then Some(Round2(weightedSum / totalWeighting)) else None;
    r := AggregationResult(aggregate, totalWeighting, |attempts|, contributingCount,
                           |missing| == 0 && contributingCount == |attempts|, missing);
  }

  lemma {:induction false} CompleteIff(attempts: seq<Attempt>)
    ensures |AttemptTerms(attempts)| <= |attempts|
    ensures |AttemptTerms(attempts)| == |attempts| <==> forall a :: a in attempts ==> Contributes(a)
    ensures (forall a :: a in attempts ==> Contributes(a)) ==> Missing(attempts) == []
  {
    if attempts == [] {
    } else {
      CompleteIff(attempts[1..]);
    }
  }

  // ---------------------------------------------------------------- laws of the aggregate

  function ContributingOnly(attempts: seq<Attempt>): seq<Attempt> {
    if attempts == [] then []
    else (if Contributes(attempts[0]) then [attempts[0]] else []) + ContributingOnly(attempts[1..])
  }

  /** Attempts that do not contribute cannot be seen in the aggregate. */
  lemma {:induction false} OnlyContributingCounts(attempts: seq<Attempt>)
    ensures AttemptTerms(ContributingOnly(attempts)) == AttemptTerms(attempts)
    ensures Aggregate(ContributingOnly(attempts)) == Aggregate(attempts)
  {
    if attempts == [] {
    } else {
      OnlyContributingCounts(attempts[1..]);
      if Contributes(attempts[0]) {
        assert ContributingOnly(attempts)[1..] == ContributingOnly(attempts[1..]);
      } else {
        assert ContributingOnly(attempts) == ContributingOnly(attempts[1..]);
      }
    }
  }

  /** The aggregate lies between the rounded bounds of the contributing percentages. */
  lemma {:induction false} AggregateBetween(attempts: seq<Attempt>, low: real, high: real)
    requires forall a :: a in attempts && Contributes(a) ==> low <= Percentage(a) <= high
    ensures Aggregate(attempts).Some? ==> Round2(low) <= Aggregate(attempts).value <= Round2(high)
  {
    var terms := AttemptTerms(attempts);
    if terms != [] {
      TermsBetween(attempts, low, high);
      MeanBetween(terms, low, high);
      Round2Monotone(low, Mean(terms));
      Round2Monotone(Mean(terms), high);
    }
  }

  lemma {:induction false} TermsBetween(attempts: seq<Attempt>, low: real, high: real)
    requires forall a :: a in attempts && Contributes(a) ==> low <= Percentage(a) <= high
    ensures forall i :: 0 <= i < |AttemptTerms(attempts)| ==> low <= AttemptTerms(attempts)[i].value <= high
  {
    if attempts == [] {
    } else {
      assert attempts[0] in attempts;
      TermsBetween(attempts[1..], low, high);
    }
  }

  lemma {:induction false} TermsOfAppend(a: seq<Attempt>, b: seq<Attempt>)
    ensures AttemptTerms(a + b) == AttemptTerms(a) + AttemptTerms(b)
  {
    if a == [] {
      assert a + b == b;
    } else {
      assert (a + b)[1..] == a[1..] + b;
      TermsOfAppend(a[1..], b);
    }
  }

  lemma {:induction false} TermsAround(before: seq<Attempt>, a: Attempt, after: seq<Attempt>)
    ensures multiset(AttemptTerms(before + [a] + after))
         == multiset(AttemptTerms([a])) + multiset(AttemptTerms(before + after))
  {
    TermsOfAppend(before + [a], after);
    TermsOfAppend(before, [a]);
    TermsOfAppend(before, after);
  }

  lemma {:induction false} TermsPermute(attempts: seq<Attempt>, shuffled: seq<Attempt>)
    requires multiset(attempts) == multiset(shuffled)
    ensures multiset(AttemptTerms(attempts)) == multiset(AttemptTerms(shuffled))
  {
    if attempts == [] {
      assert |shuffled| == |multiset(shuffled)| == 0;
    } else {
      var k := FirstInPermutation(attempts, shuffled);
      TermsPermute(attempts[1..], shuffled[..k] + shuffled[k + 1..]);
      TermsAround(shuffled[..k], attempts[0], shuffled[k + 1..]);
      TermsAround([], attempts[0], attempts[1..]);
      assert [] + [attempts[0]] + attempts[1..] == attempts && [] + attempts[1..] == attempts[1..];
    }
  }

  /** The order in which attempts are read does not matter. */
  lemma {:induction false} AggregatePermutation(attempts: seq<Attempt>, shuffled: seq<Attempt>)
    requires multiset(attempts) == multiset(shuffled)
    ensures Aggregate(attempts) == Aggregate(shuffled)
  {
    TermsPermute(attempts, shuffled);
    var s, t := AttemptTerms(attempts), AttemptTerms(shuffled);
    assert |s| == |multiset(s)| == |multiset(t)| == |t|;
    TotalPermutation(s, t);
  }

  /** A single attempt with a mark, a positive maximum and a positive weighting aggregates to its mark out of
      a hundred; any other single attempt to nothing, and it is missing if it has no mark. */
  lemma {:induction false} OneAttempt(a: Attempt)
    ensures var counts := a.finalMark.Some? && a.maxMark > 0.0 && a.weighting > 0.0;
      && ExactAggregate([a]) == (if counts then Some(100.0 * a.finalMark.value / a.maxMark) else None)
      && AttemptTerms([a]) == (if counts then [Term(100.0 * a.finalMark.value / a.maxMark, a.weighting)] else [])
    ensures Missing([a]) == if a.finalMark.None? then [a.assessmentId] else []
  {
    assert [a][1..] == [];
    assert AttemptTerms([]) == [] && Missing([]) == [];
    if Contributes(a) {
      HundredTimes(a.finalMark.value, a.maxMark);
      var t := Term(Percentage(a), a.weighting);
      MeanSplits(t, [t], [t]);
    }
  }

  lemma {:induction false} HundredTimes(mark: real, max: real)
    requires max > 0.0
    ensures mark / max * 100.0 == 100.0 * mark / max
  {
    var q := mark / max;
    assert q * max == mark;
    assert (100.0 * q) * max == 100.0 * mark;
  }

  /** The aggregate of two groups of attempts is the mean of their aggregates, each weighted by the total
      weighting of its contributing attempts. */
  lemma {:induction false} AggregateSplits(a: seq<Attempt>, b: seq<Attempt>)
    ensures Missing(a + b) == Missing(a) + Missing(b) && AttemptTerms(a + b) == AttemptTerms(a) + AttemptTerms(b)
    ensures var v, w := Weights(AttemptTerms(a)), Weights(AttemptTerms(b));
      match (ExactAggregate(a), ExactAggregate(b))
      case (None, _) => ExactAggregate(a + b) == ExactAggregate(b)
      case (_, None) => ExactAggregate(a + b) == ExactAggregate(a)
      case (Some(x), Some(y)) =>
        ExactAggregate(a + b).Some? && ExactAggregate(a + b).value * (v + w) == x * v + y * w
  {
    hide AttemptTerms, Mean, Weights;
    TermsOfAppend(a, b);
    MissingOfAppend(a, b);
    var s, t := AttemptTerms(a), AttemptTerms(b);
    if s == [] {
      assert s + t == t;
    } else if t == [] {
      assert s + t == s;
    } else {
      MeanSplits(s[0], s, t);
    }
  }

  lemma {:induction false} MissingOfAppend(a: seq<Attempt>, b: seq<Attempt>)
    ensures Missing(a + b) == Missing(a) + Missing(b)
  {
    if a == [] {
      assert a + b == b;
    } else {
      assert (a + b)[1..] == a[1..] + b;
      MissingOfAppend(a[1..], b);
    }
  }

  function Reweigh(k: real): Attempt -> Attempt { (a: Attempt) => a.(weighting := k * a.weighting) }

  lemma {:induction false} TermsReweigh(attempts: seq<Attempt>, k: real)
    requires k > 0.0
    ensures AttemptTerms(Map(Reweigh(k), attempts)) == Map(Scale(k), AttemptTerms(attempts))
  {
    if attempts == [] {
    } else {
      var a := attempts[0];
      MapTail(Reweigh(k), attempts);
      TermsReweigh(attempts[1..], k);
      assert k * a.weighting > 0.0 <==> a.weighting > 0.0;
      var reweighed := Map(Reweigh(k), attempts);
      assert reweighed[0] == Reweigh(k)(a) && reweighed[1..] == Map(Reweigh(k), attempts[1..]);
      if Contributes(a) {
        var t, tail := Term(Percentage(a), a.weighting), AttemptTerms(attempts[1..]);
        assert Contributes(reweighed[0]) && Percentage(reweighed[0]) == Percentage(a);
        assert Scale(k)(t) == Term(Percentage(reweighed[0]), reweighed[0].weighting);
        assert AttemptTerms(reweighed) == [Scale(k)(t)] + AttemptTerms(reweighed[1..]);
        MapTail(Scale(k), [t] + tail);
        assert ([t] + tail)[1..] == tail;
      }
    }
  }

  /** Weightings need not add up to 100: only their proportions matter. */
  lemma {:induction false} AggregateScaleInvariant(attempts: seq<Attempt>, k: real)
    requires k > 0.0
    ensures Aggregate(Map(Reweigh(k), attempts)) == Aggregate(attempts)
  {
    TermsReweigh(attempts, k);
    if AttemptTerms(attempts) != [] { MeanScaleInvariant(AttemptTerms(attempts), k); }
  }

  // ---------------------------------------------------------------- the award

  datatype ModuleResult = ModuleResult(
    moduleId: string,
    credits: real,
    aggregateMark: Option<real>,
    weight: Option<real>)

  datatype Classification = FIRST | UPPER_SECOND | LOWER_SECOND | THIRD | PASS | FAIL | DISTINCTION | MERIT

  datatype Level = LEVEL_3 | LEVEL_4 | LEVEL_5 | LEVEL_6 | LEVEL_7 | LEVEL_8

  datatype Boundary = Boundary(minAverageMark: real, classification: Classification)

  datatype Rules = Rules(honours: seq<Boundary>, pgt: seq<Boundary>, subHonoursPassMark: real)

  const DEFAULT_RULES := Rules(
    [Boundary(70.0, FIRST), Boundary(60.0, UPPER_SECOND), Boundary(50.0, LOWER_SECOND), Boundary(40.0, THIRD)],
    [Boundary(70.0, DISTINCTION), Boundary(60.0, MERIT), Boundary(50.0, PASS)],
    40.0)

  /** The explicit weight when there is one, the credit value otherwise. */
  function EffectiveWeight(r: ModuleResult): real { if r.weight.Some? then r.weight.value else r.credits }

  predicate Counts(r: ModuleResult) { r.aggregateMark.Some? && r.credits > 0.0 && EffectiveWeight(r) > 0.0 }

  function ResultTerms(results: seq<ModuleResult>): (terms: seq<Term>)
    ensures Positive(terms)
  {
    if results == [] then []
    else
      var r, rest := results[0], ResultTerms(results[1..]);
      if Counts(r) then [Term(r.aggregateMark.value, EffectiveWeight(r))] + rest else rest
  }

  function FinalAverage(results: seq<ModuleResult>): Option<real> {
    var terms := ResultTerms(results);
    if terms == [] then None else Some(Round2(Mean(terms)))
  }

  function Excluded(results: seq<ModuleResult>): seq<string> {
    if results == [] then []
    else (if Counts(results[0]) then [] else [results[0].moduleId]) + Excluded(results[1..])
  }

  function CreditsCounted(results: seq<ModuleResult>): real {
    if results == [] then 0.0
    else (if Counts(results[0]) then results[0].credits else 0.0) + CreditsCounted(results[1..])
  }

  function ModuleIds(results: seq<ModuleResult>): seq<string> {
    if results == [] then [] else [results[0].moduleId] + ModuleIds(results[1..])
  }

  /** The first boundary of the table that the average meets. */
  function ApplyBoundaries(average: real, boundaries: seq<Boundary>): Option<Classification> {
    if boundaries == [] then None
    else if average >= boundaries[0].minAverageMark then Some(boundaries[0].classification)
    else ApplyBoundaries(average, boundaries[1..])
  }

  function ClassOf(level: Level, rules: Rules, average: real): Classification {
    match level
    case LEVEL_8 => FAIL
    case LEVEL_6 => (match ApplyBoundaries(average, rules.honours) case None => FAIL case Some(c) => c)
    case LEVEL_7 => (match ApplyBoundaries(average, rules.pgt) case None => FAIL case Some(c) => c)
    case _ => if average >= rules.subHonoursPassMark then PASS else FAIL
  }

  function Classify(level: Level, rules: Rules, results: seq<ModuleResult>): Classification {
    match FinalAverage(results)
    case None => FAIL
    case Some(average) => ClassOf(level, rules, average)
  }

  datatype Outcome = Outcome(
    classification: Classification,
    finalAverage: Option<real>,
    totalCreditsConsidered: real,
    contributingModuleCount: nat,
    excludedModuleIds: seq<string>)

  /** What the module at `i` adds to each running value. */
  lemma ResultStep(results: seq<ModuleResult>, i: nat)
    requires i < |results|
    ensures var r, here, rest := results[i], ResultTerms(results[i..]), ResultTerms(results[i + 1..]);
      && (!Counts(r) ==> here == rest && Excluded(results[i..]) == [r.moduleId] + Excluded(results[i + 1..])
                         && CreditsCounted(results[i..]) == CreditsCounted(results[i + 1..]))
      && (Counts(r) ==>
            && Total(here) == r.aggregateMark.value * EffectiveWeight(r) + Total(rest)
            && Weights(here) == EffectiveWeight(r) + Weights(rest) && |here| == 1 + |rest|
            && Excluded(results[i..]) == Excluded(results[i + 1..])
            && CreditsCounted(results[i..]) == r.credits + CreditsCounted(results[i + 1..]))
  {
  }

  lemma NoResults()
    ensures ResultTerms([]) == [] && Excluded([]) == [] && CreditsCounted([]) == Total([]) == Weights([]) == 0.0
  {
  }

  method ClassifyAward(results: seq<ModuleResult>, level: Level, rules: Rules) returns (o: Outcome)
    ensures o.classification == Classify(level, rules, results)
    ensures level != LEVEL_8 ==>
              o == Outcome(Classify(level, rules, results), FinalAverage(results), CreditsCounted(results),
                           |ResultTerms(results)|, Excluded(results))
    ensures level == LEVEL_8 ==> o == Outcome(FAIL, None, 0.0, 0, ModuleIds(results))
  {
    hide ResultTerms, Total, Weights, CreditsCounted, Excluded;
    if level == LEVEL_8 {
      return Outcome(FAIL, None, 0.0, 0, ModuleIds(results));
    }
    var weightedSum, totalWeight, totalCredits, count := 0.0, 0.0, 0.0, 0;
    var excluded: seq<string> := [];
    assert results[0..] == results;
    for i := 0 to |results|
      invariant weightedSum + Total(ResultTerms(results[i..])) == Total(ResultTerms(results))
      invariant totalWeight + Weights(ResultTerms(results[i..])) == Weights(ResultTerms(results))
      invariant totalCredits + CreditsCounted(results[i..]) == CreditsCounted(results)
      invariant count + |ResultTerms(results[i..])| == |ResultTerms(results)|
      invariant excluded + Excluded(results[i..]) == Excluded(results)
    {
      var r := results[i];
      ResultStep(results, i);
      if r.aggregateMark.None? || r.credits <= 0.0 {
        excluded := excluded + [r.moduleId];
        continue;
      }
      var weight := if r.weight.Some? then r.weight.value else r.credits;
      if weight <= 0.0 {
        excluded := excluded + [r.moduleId];
        continue;
      }
      weightedSum := weightedSum + r.aggregateMark.value * weight;
      totalWeight := totalWeight + weight;
      totalCredits := totalCredits + r.credits;
      count := count + 1;
    }
    assert results[|results|..] == [];
    NoResults();
    WeightsPositive(ResultTerms(results));
    if totalWeight == 0.0 {
      NothingCounted(results);
      return Outcome(FAIL, None, 0.0, 0, excluded);
    }
    var average := Round2(weightedSum / totalWeight);
    o := Outcome(ClassOf(level, rules, average), Some(average), totalCredits, count, excluded);
  }

  lemma {:induction false} NothingCounted(results: seq<ModuleResult>)
    requires ResultTerms(results) == []
    ensures CreditsCounted(results) == 0.0
  {
    if results == [] {
    } else {
      NothingCounted(results[1..]);
    }
  }

  // ---------------------------------------------------------------- boundary tables

  /** The classification is the boundary met that no earlier boundary pre-empts; failing means that no
      boundary is met. */
  lemma {:induction false} ApplyBoundariesFirst(average: real, boundaries: seq<Boundary>)
    ensures ApplyBoundaries(average, boundaries).None?
       <==> forall k :: 0 <= k < |boundaries| ==> average < boundaries[k].minAverageMark
    ensures ApplyBoundaries(average, boundaries).Some? ==>
              exists k :: 0 <= k < |boundaries| && average >= boundaries[k].minAverageMark
                && boundaries[k].classification == ApplyBoundaries(average, boundaries).value
                && forall j :: 0 <= j < k ==> average < boundaries[j].minAverageMark
  {
    if boundaries != [] && average < boundaries[0].minAverageMark {
      var tail := boundaries[1..];
      ApplyBoundariesFirst(average, tail);
      assert forall k :: 0 < k < |boundaries| ==> boundaries[k] == tail[k - 1];
      if ApplyBoundaries(average, tail).Some? {
        var k :| 0 <= k < |tail| && average >= tail[k].minAverageMark
          && tail[k].classification == ApplyBoundaries(average, tail).value
          && forall j :: 0 <= j < k ==> average < tail[j].minAverageMark;
        assert boundaries[k + 1] == tail[k];
      }
    }
  }

  /** The table awards the class to the average: that of the first boundary met, or a fail with none met. */
  ghost predicate Awarded(average: real, boundaries: seq<Boundary>, c: Classification) {
    || (c == FAIL && forall k :: 0 <= k < |boundaries| ==> average < boundaries[k].minAverageMark)
    || (exists k :: 0 <= k < |boundaries| && boundaries[k].classification == c
          && average >= boundaries[k].minAverageMark
          && forall j :: 0 <= j < k ==> average < boundaries[j].minAverageMark)
  }

  /** Which rule decides at each level: the honours table at level 6, the postgraduate table at level 7, the
      pass mark alone below, and nothing passes at level 8 or without an average. */
  lemma {:induction false} LevelDecides(level: Level, rules: Rules, results: seq<ModuleResult>)
    ensures FinalAverage(results).None? || level == LEVEL_8 ==> Classify(level, rules, results) == FAIL
    ensures FinalAverage(results).Some? ==>
      var average, c := FinalAverage(results).value, Classify(level, rules, results);
      && (level == LEVEL_6 ==> Awarded(average, rules.honours, c))
      && (level == LEVEL_7 ==> Awarded(average, rules.pgt, c))
      && (level == LEVEL_3 || level == LEVEL_4 || level == LEVEL_5 ==>
            (c == PASS <==> average >= rules.subHonoursPassMark)
            && (c == FAIL <==> average < rules.subHonoursPassMark))
  {
    if FinalAverage(results).Some? {
      ApplyBoundariesFirst(FinalAverage(results).value, rules.honours);
      ApplyBoundariesFirst(FinalAverage(results).value, rules.pgt);
    }
  }

  type Rank = Classification -> int

  /** Earlier boundaries award higher ranks, and none ranks below failing. */
  ghost predicate RankDescending(boundaries: seq<Boundary>, rank: Rank) {
    && (forall i, j :: 0 <= i < j < |boundaries| ==>
          rank(boundaries[i].classification) >= rank(boundaries[j].classification))
    && (forall i :: 0 <= i < |boundaries| ==> rank(boundaries[i].classification) >= rank(FAIL))
  }

  ghost predicate RulesDescending(rules: Rules, rank: Rank) {
    RankDescending(rules.honours, rank) && RankDescending(rules.pgt, rank) && rank(PASS) >= rank(FAIL)
  }

  function RankOf(c: Option<Classification>, rank: Rank): int { if c.None? then rank(FAIL) else rank(c.value) }

  lemma {:induction false} BoundariesMonotone(a: real, b: real, boundaries: seq<Boundary>, rank: Rank)
    requires a <= b && RankDescending(boundaries, rank)
    ensures RankOf(ApplyBoundaries(a, boundaries), rank) <= RankOf(ApplyBoundaries(b, boundaries), rank)
  {
    if boundaries == [] {
    } else {
      var tail := boundaries[1..];
      assert RankDescending(tail, rank) by {
        forall i, j | 0 <= i < j < |tail| ensures rank(tail[i].classification) >= rank(tail[j].classification) {
          assert tail[i] == boundaries[i + 1] && tail[j] == boundaries[j + 1];
        }
      }
      if b < boundaries[0].minAverageMark {
        BoundariesMonotone(a, b, tail, rank);
      } else {
        ApplyBoundariesFirst(a, boundaries);
      }
    }
  }

  /** A higher average never earns a lower class, at any level and under any descending rules. */
  lemma {:induction false} ClassMonotone(level: Level, rules: Rules, a: real, b: real, rank: Rank)
    requires a <= b && RulesDescending(rules, rank)
    ensures rank(ClassOf(level, rules, a)) <= rank(ClassOf(level, rules, b))
  {
    BoundariesMonotone(a, b, rules.honours, rank);
    BoundariesMonotone(a, b, rules.pgt, rank);
  }

  /** The order of merit the default tables follow. */
  function Merit(c: Classification): int {
    match c
    case FAIL => 0
    case PASS => 1
    case THIRD => 1
    case LOWER_SECOND => 2
    case MERIT => 3
    case UPPER_SECOND => 3
    case DISTINCTION => 4
    case FIRST => 4
  }

  ghost predicate ThresholdsDescend(boundaries: seq<Boundary>) {
    forall i, j :: 0 <= i < j < |boundaries| ==> boundaries[i].minAverageMark > boundaries[j].minAverageMark
  }

  /** The default tables descend in merit and in threshold, so the first boundary met is the highest. */
  lemma {:induction false} DefaultRulesDescend()
    ensures RulesDescending(DEFAULT_RULES, Merit)
    ensures ThresholdsDescend(DEFAULT_RULES.honours) && ThresholdsDescend(DEFAULT_RULES.pgt)
  {
    hide ThresholdsDescend;
    DefaultThresholdsDescend();
  }

  lemma DefaultThresholdsDescend()
    ensures ThresholdsDescend(DEFAULT_RULES.honours) && ThresholdsDescend(DEFAULT_RULES.pgt)
  {
  }

  /** A module counts with a mark, positive credits and a positive weight, which is its credits unless one is
      given; the others are excluded by id. */
  lemma {:induction false} OneModule(r: ModuleResult)
    ensures var weight := if r.weight.Some? then r.weight.value else r.credits;
      var counts := r.aggregateMark.Some? && r.credits > 0.0 && weight > 0.0;
      && ResultTerms([r]) == (if counts then [Term(r.aggregateMark.value, weight)] else [])
      && Excluded([r]) == (if counts then [] else [r.moduleId])
      && CreditsCounted([r]) == (if counts then r.credits else 0.0)
    ensures ModuleIds([r]) == [r.moduleId]
  {
    assert [r][1..] == [];
  }

  /** Two groups of modules: their terms, exclusions and credits are put together, and so the mean of both is
      the mean of their means weighted by what each group weighs. */
  lemma {:induction false} ResultsSplit(a: seq<ModuleResult>, b: seq<ModuleResult>)
    ensures ResultTerms(a + b) == ResultTerms(a) + ResultTerms(b) && Excluded(a + b) == Excluded(a) + Excluded(b)
    ensures CreditsCounted(a + b) == CreditsCounted(a) + CreditsCounted(b)
    ensures ModuleIds(a + b) == ModuleIds(a) + ModuleIds(b)
    ensures ResultTerms(a) != [] && ResultTerms(b) != [] ==>
      var v, w := Weights(ResultTerms(a)), Weights(ResultTerms(b));
      FinalAverage(a + b).Some? && Mean(ResultTerms(a + b)) * (v + w)
        == Mean(ResultTerms(a)) * v + Mean(ResultTerms(b)) * w
  {
    hide Mean, Weights;
    ResultsAppend(a, b);
    var s, t := ResultTerms(a), ResultTerms(b);
    if s != [] && t != [] { MeanSplits(s[0], s, t); }
  }

  lemma ResultsUnfold(results: seq<ModuleResult>)
    requires results != []
    ensures var r, rest := results[0], results[1..];
      && ResultTerms(results)
         == (if Counts(r) then [Term(r.aggregateMark.value, EffectiveWeight(r))] else []) + ResultTerms(rest)
      && Excluded(results) == (if Counts(r) then [] else [r.moduleId]) + Excluded(rest)
      && CreditsCounted(results) == (if Counts(r) then r.credits else 0.0) + CreditsCounted(rest)
      && ModuleIds(results) == [r.moduleId] + ModuleIds(rest)
  {
  }

  lemma {:induction false} ResultsAppend(a: seq<ModuleResult>, b: seq<ModuleResult>)
    ensures ResultTerms(a + b) == ResultTerms(a) + ResultTerms(b) && Excluded(a + b) == Excluded(a) + Excluded(b)
    ensures CreditsCounted(a + b) == CreditsCounted(a) + CreditsCounted(b)
    ensures ModuleIds(a + b) == ModuleIds(a) + ModuleIds(b)
  {
    if a == [] {
      assert a + b == b;
    } else {
      var r, rest, all := a[0], a[1..], a + b;
      assert all[0] == r && all[1..] == rest + b;
      ResultsAppend(rest, b);
      ResultsUnfold(a);
      ResultsUnfold(all);
      hide ResultTerms, Excluded, CreditsCounted, ModuleIds, Counts;
    }
  }

  // ---------------------------------------------------------------- marks to award

  /** A module as registered: its attempts still unaggregated. */
  datatype ModuleRecord = ModuleRecord(moduleId: string, credits: real, weight: Option<real>, attempts: seq<Attempt>)

  function ToResult(m: ModuleRecord): ModuleResult {
    ModuleResult(m.moduleId, m.credits, Aggregate(m.attempts), m.weight)
  }

  function Results(modules: seq<ModuleRecord>): seq<ModuleResult> { Map(ToResult, modules) }

  /** The attempt at (i, j) remarked. */
  function Remark(attempts: seq<Attempt>, j: nat, mark: real): seq<Attempt>
    requires j < |attempts|
  {
    attempts[j := attempts[j].(finalMark := Some(mark))]
  }

  lemma {:induction false} RemarkDominates(attempts: seq<Attempt>, j: nat, mark: real)
    requires j < |attempts| && Contributes(attempts[j]) && mark >= attempts[j].finalMark.value
    ensures Dominates(AttemptTerms(Remark(attempts, j, mark)), AttemptTerms(attempts), 0.0)
    ensures AttemptTerms(attempts) != []
  {
    var after := Remark(attempts, j, mark);
    if j == 0 {
      var a := attempts[0];
      assert after[1..] == attempts[1..];
      QuotientMonotone(a.finalMark.value, mark, a.maxMark);
    } else {
      assert after[1..] == Remark(attempts[1..], j - 1, mark);
      RemarkDominates(attempts[1..], j - 1, mark);
    }
  }

  lemma {:induction false} QuotientMonotone(a: real, b: real, w: real)
    requires w > 0.0 && a <= b
    ensures a / w <= b / w && a / w * 100.0 <= b / w * 100.0
  {
    QuotientLeq(a, b / w, w);
  }

  /** Raising a contributing mark never lowers the module aggregate. */
  lemma {:induction false} AggregateMonotone(attempts: seq<Attempt>, j: nat, mark: real)
    requires j < |attempts| && Contributes(attempts[j]) && mark >= attempts[j].finalMark.value
    ensures Aggregate(attempts).Some? && Aggregate(Remark(attempts, j, mark)).Some?
    ensures Aggregate(attempts).value <= Aggregate(Remark(attempts, j, mark)).value
  {
    RemarkDominates(attempts, j, mark);
    var low, high := AttemptTerms(attempts), AttemptTerms(Remark(attempts, j, mark));
    MeanDominates(high, low, 0.0);
    Round2Monotone(Mean(low), Mean(high));
  }

  lemma {:induction false} ResultsDominate(low: seq<ModuleResult>, high: seq<ModuleResult>, i: nat)
    requires |low| == |high| && i < |low|
    requires forall k :: 0 <= k < |low| && k != i ==> low[k] == high[k]
    requires low[i].aggregateMark.Some? && high[i] == low[i].(aggregateMark := high[i].aggregateMark)
    requires high[i].aggregateMark.Some? && low[i].aggregateMark.value <= high[i].aggregateMark.value
    ensures Dominates(ResultTerms(high), ResultTerms(low), 0.0)
  {
    if i == 0 {
      assert low[1..] == high[1..];
    } else {
      assert low[0] == high[0];
      ResultsDominate(low[1..], high[1..], i - 1);
    }
  }

  lemma {:induction false} AverageMonotone(low: seq<ModuleResult>, high: seq<ModuleResult>)
    requires Dominates(ResultTerms(high), ResultTerms(low), 0.0)
    ensures FinalAverage(low).Some? <==> FinalAverage(high).Some?
    ensures FinalAverage(low).Some? ==> FinalAverage(low).value <= FinalAverage(high).value
  {
    var l, h := ResultTerms(low), ResultTerms(high);
    if l != [] {
      MeanDominates(h, l, 0.0);
      Round2Monotone(Mean(l), Mean(h));
    }
  }

  /** End to end: raising any contributing mark of any module lowers neither that module's aggregate,
      nor the final average, nor the class. */
  lemma {:induction false} HigherMarkNeverHurts(modules: seq<ModuleRecord>, i: nat, j: nat, mark: real, level: Level,
                                                rules: Rules, rank: Rank)
    requires i < |modules| && j < |modules[i].attempts| && Contributes(modules[i].attempts[j])
    requires mark >= modules[i].attempts[j].finalMark.value && RulesDescending(rules, rank)
    ensures var raised := modules[i := modules[i].(attempts := Remark(modules[i].attempts, j, mark))];
      && Aggregate(modules[i].attempts).Some? && Aggregate(raised[i].attempts).Some?
      && Aggregate(modules[i].attempts).value <= Aggregate(raised[i].attempts).value
      && (FinalAverage(Results(modules)).Some? ==>
            FinalAverage(Results(raised)).Some?
            && FinalAverage(Results(modules)).value <= FinalAverage(Results(raised)).value)
      && rank(Classify(level, rules, Results(modules))) <= rank(Classify(level, rules, Results(raised)))
  {
    var raised := modules[i := modules[i].(attempts := Remark(modules[i].attempts, j, mark))];
    var low, high := Results(modules), Results(raised);
    AggregateMonotone(modules[i].attempts, j, mark);
    ResultsDominate(low, high, i);
    AverageMonotone(low, high);
    if FinalAverage(low).Some? {
      ClassMonotone(level, rules, FinalAverage(low).value, FinalAverage(high).value, rank);
    }
  }

  // ---------------------------------------------------------------- two roundings

  /** The module as the exact mean sees it: its percentage before rounding. */
  function ToExact(m: ModuleRecord): ModuleResult {
    ModuleResult(m.moduleId, m.credits, ExactAggregate(m.attempts), m.weight)
  }

  lemma {:induction false} RoundedTermsClose(modules: seq<ModuleRecord>)
    ensures var rounded, exact := ResultTerms(Results(modules)), ResultTerms(Map(ToExact, modules));
      Dominates(rounded, exact, 0.005) && Dominates(exact, rounded, 0.005)
  {
    hide Round2, ExactAggregate;
    if modules == [] {
    } else {
      var m := modules[0];
      MapTail(ToResult, modules);
      MapTail(ToExact, modules);
      RoundedTermsClose(modules[1..]);
      if ExactAggregate(m.attempts).Some? { Round2Error(ExactAggregate(m.attempts).value); }
    }
  }

  /** The final average is within a hundredth of the mean of the unrounded module percentages. */
  lemma {:induction false} DoubleRoundingBound(modules: seq<ModuleRecord>)
    ensures var exact := ResultTerms(Map(ToExact, modules));
      && (FinalAverage(Results(modules)).Some? <==> exact != [])
      && (exact != [] ==> Mean(exact) - 0.01 <= FinalAverage(Results(modules)).value <= Mean(exact) + 0.01)
  {
    var rounded, exact := ResultTerms(Results(modules)), ResultTerms(Map(ToExact, modules));
    RoundedTermsClose(modules);
    if exact != [] {
      MeanDominates(rounded, exact, 0.005);
      MeanDominates(exact, rounded, 0.005);
      Round2Error(Mean(rounded));
    }
  }

  /** A boundary is met exactly when the mean of the module aggregates comes within half a hundredth
      of it, the boundary first being taken up to whole hundredths. */
  lemma {:induction false} BoundaryMetIff(results: seq<ModuleResult>, b: real)
    requires ResultTerms(results) != []
    ensures FinalAverage(results).value >= b
       <==> Mean(ResultTerms(results)) >= CeilHundredths(b) as real / 100.0 - 0.005
  {
    RoundedReaches(Mean(ResultTerms(results)), b);
  }

  /** For a boundary with at most two decimals that is b - 0.005; in particular a mean of 69.995 is a
      first. */
  lemma {:induction false} BoundaryOnGridMetIff(results: seq<ModuleResult>, k: int)
    requires ResultTerms(results) != []
    ensures FinalAverage(results).value >= k as real / 100.0
       <==> Mean(ResultTerms(results)) >= k as real / 100.0 - 0.005
  {
    BoundaryMetIff(results, k as real / 100.0);
    var b := k as real / 100.0;
    assert b * 100.0 == k as real;
    assert (-(k as real)).Floor == -k;
  }

  /** The default rules end to end, on the mean of the module aggregates before rounding: a first from
      69.995, an upper second from 59.995, and so on down. */
  lemma {:induction false} DefaultClasses(results: seq<ModuleResult>, level: Level)
    requires ResultTerms(results) != []
    ensures var mean, c := Mean(ResultTerms(results)), Classify(level, DEFAULT_RULES, results);
      && (level == LEVEL_6 ==>
            c == if mean >= 69.995 then FIRST else if mean >= 59.995 then UPPER_SECOND
                 else if mean >= 49.995 then LOWER_SECOND else if mean >= 39.995 then THIRD else FAIL)
      && (level == LEVEL_7 ==>
            c == if mean >= 69.995 then DISTINCTION else if mean >= 59.995 then MERIT
                 else if mean >= 49.995 then PASS else FAIL)
      && (level == LEVEL_3 || level == LEVEL_4 || level == LEVEL_5 ==> c == if mean >= 39.995 then PASS else FAIL)
  {
    hide Mean, FinalAverage;
    BoundaryOnGridMetIff(results, 7000);
    BoundaryOnGridMetIff(results, 6000);
    BoundaryOnGridMetIff(results, 5000);
    BoundaryOnGridMetIff(results, 4000);
    AverageExists(results);
    TablesUnfold(FinalAverage(results).value);
  }

  lemma AverageExists(results: seq<ModuleResult>)
    requires ResultTerms(results) != []
    ensures FinalAverage(results).Some?
  {
  }

  lemma {:induction false} TablesUnfold(average: real)
    ensures ApplyBoundaries(average, DEFAULT_RULES.honours)
         == if average >= 70.0 then Some(FIRST) else if average >= 60.0 then Some(UPPER_SECOND)
            else if average >= 50.0 then Some(LOWER_SECOND) else if average >= 40.0 then Some(THIRD) else None
    ensures ApplyBoundaries(average, DEFAULT_RULES.pgt)
         == if average >= 70.0 then Some(DISTINCTION) else if average >= 60.0 then Some(MERIT)
            else if average >= 50.0 then Some(PASS) else None
  {
    var h, p := DEFAULT_RULES.honours, DEFAULT_RULES.pgt;
    assert h[1..] == [h[1], h[2], h[3]] && p == [p[0], p[1], p[2]];
    ThreeBoundaries(average, h[1], h[2], h[3]);
    ThreeBoundaries(average, p[0], p[1], p[2]);
  }

  lemma {:induction false} ThreeBoundaries(average: real, a: Boundary, b: Boundary, c: Boundary)
    ensures ApplyBoundaries(average, [a, b, c])
         == if average >= a.minAverageMark then Some(a.classification)
            else if average >= b.minAverageMark then Some(b.classification)
            else if average >= c.minAverageMark then Some(c.classification) else None
  {
    assert [a, b, c][1..] == [b, c] && [b, c][1..] == [c] && [c][1..] == [];
    assert ApplyBoundaries(average, [c]) == if average >= c.minAverageMark then Some(c.classification)
                                            else ApplyBoundaries(average, []);
    assert ApplyBoundaries(average, [b, c]) == if average >= b.minAverageMark then Some(b.classification)
                                               else ApplyBoundaries(average, [c]);
  }
}
