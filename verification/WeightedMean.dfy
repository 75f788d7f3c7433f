/** Weighted means over exact rationals and rounding to two decimal places, shared by the module
    aggregate and the award average. */
module WeightedMean {
  import opened Prelude

  datatype Term = Term(value: real, weight: real)

  function ValueWeight(t: Term): real { t.value * t.weight }

  function Total(terms: seq<Term>): real { if terms == [] then 0.0 else ValueWeight(terms[0]) + Total(terms[1..]) }

  function Weights(terms: seq<Term>): real { if terms == [] then 0.0 else terms[0].weight + Weights(terms[1..]) }

  ghost predicate Positive(terms: seq<Term>) { forall i :: 0 <= i < |terms| ==> terms[i].weight > 0.0 }

  lemma {:induction false} WeightsPositive(terms: seq<Term>)
    requires Positive(terms)
    ensures Weights(terms) >= 0.0 && (terms != [] ==> Weights(terms) > 0.0)
  {
    if terms == [] {
    } else {
      WeightsPositive(terms[1..]);
    }
  }

  function Mean(terms: seq<Term>): real
    requires Positive(terms) && terms != []
  {
    WeightsPositive(terms);
    Total(terms) / Weights(terms)
  }

  // ---------------------------------------------------------------- arithmetic steps

  lemma ScaleLeq(a: real, b: real, w: real)
    requires a <= b && w >= 0.0
    ensures a * w <= b * w
  {
  }

  lemma {:induction false} QuotientLeq(a: real, b: real, w: real)
    requires w > 0.0 && a <= b * w
    ensures a / w <= b
  {
    if a / w > b { assert (a / w) * w == a; ScaleLess(b, a / w, w); }
  }

  lemma {:induction false} QuotientGeq(a: real, b: real, w: real)
    requires w > 0.0 && b * w <= a
    ensures b <= a / w
  {
    if a / w < b { assert (a / w) * w == a; ScaleLess(a / w, b, w); }
  }

  lemma ScaleLess(a: real, b: real, w: real)
    requires a < b && w > 0.0
    ensures a * w < b * w
  {
  }

  lemma DistributeReal(a: real, b: real, c: real)
    ensures (a + b) * c == a * c + b * c
  {
  }

  lemma DistributeLeft(a: real, b: real, c: real)
    ensures a * (b + c) == a * b + a * c
  {
  }

  // ---------------------------------------------------------------- laws of the mean

  /** Terms that pair up with equal weights and values at most `slack` apart. */
  ghost predicate Dominates(high: seq<Term>, low: seq<Term>, slack: real) {
    |high| == |low|
    && forall i :: 0 <= i < |low| ==> low[i].weight == high[i].weight && low[i].value <= high[i].value + slack
  }

  lemma {:induction false} TotalDominates(high: seq<Term>, low: seq<Term>, slack: real)
    requires Positive(low) && Dominates(high, low, slack)
    ensures Weights(low) == Weights(high) && Total(low) <= Total(high) + slack * Weights(high)
  {
    if low == [] {
    } else {
      var l, h := low[0], high[0];
      TotalDominates(high[1..], low[1..], slack);
      ScaleLeq(l.value, h.value + slack, l.weight);
      DistributeReal(h.value, slack, h.weight);
      DistributeLeft(slack, h.weight, Weights(high[1..]));
    }
  }

  /** Raising values by no less than they are lowered by `slack` moves the mean by at most `slack`. */
  lemma {:induction false} MeanDominates(high: seq<Term>, low: seq<Term>, slack: real)
    requires Positive(low) && Positive(high) && low != [] && Dominates(high, low, slack)
    ensures Mean(low) <= Mean(high) + slack
  {
    TotalDominates(high, low, slack);
    WeightsPositive(high);
    var w, m := Weights(high), Mean(high);
    assert m * w == Total(high);
    DistributeReal(m, slack, w);
    QuotientLeq(Total(low), m + slack, w);
  }

  lemma {:induction false} OneMoreBetween(low: real, value: real, high: real, weight: real, weights: real, total: real)
    requires low <= value <= high && weight >= 0.0 && low * weights <= total <= high * weights
    ensures low * (weight + weights) <= value * weight + total <= high * (weight + weights)
  {
    ScaleLeq(low, value, weight);
    ScaleLeq(value, high, weight);
    DistributeLeft(low, weight, weights);
    DistributeLeft(high, weight, weights);
  }

  lemma {:induction false} TotalBetween(terms: seq<Term>, low: real, high: real)
    requires Positive(terms) && forall i :: 0 <= i < |terms| ==> low <= terms[i].value <= high
    ensures low * Weights(terms) <= Total(terms) <= high * Weights(terms)
  {
    if terms == [] {
    } else {
      TotalBetween(terms[1..], low, high);
      OneMoreBetween(low, terms[0].value, high, terms[0].weight, Weights(terms[1..]), Total(terms[1..]));
    }
  }

  /** The mean lies between any bounds on the values. */
  lemma {:induction false} MeanBetween(terms: seq<Term>, low: real, high: real)
    requires Positive(terms) && terms != [] && forall i :: 0 <= i < |terms| ==> low <= terms[i].value <= high
    ensures low <= Mean(terms) <= high
  {
    TotalBetween(terms, low, high);
    WeightsPositive(terms);
    QuotientLeq(Total(terms), high, Weights(terms));
    QuotientGeq(Total(terms), low, Weights(terms));
  }

  lemma {:induction false} TotalAppend(a: seq<Term>, b: seq<Term>)
    ensures Total(a + b) == Total(a) + Total(b) && Weights(a + b) == Weights(a) + Weights(b)
  {
    if a == [] {
      assert a + b == b;
    } else {
      assert (a + b)[1..] == a[1..] + b;
      TotalAppend(a[1..], b);
    }
  }

  /** The order of the terms does not matter. */
  lemma {:induction false} TotalPermutation(s: seq<Term>, t: seq<Term>)
    requires multiset(s) == multiset(t)
    ensures Total(s) == Total(t) && Weights(s) == Weights(t)
  {
    if s == [] {
      assert |t| == |multiset(t)| == 0;
    } else {
      var k := FirstInPermutation(s, t);
      var before, after := t[..k], t[k + 1..];
      TotalPermutation(s[1..], before + after);
      TotalAppend(before + [t[k]], after);
      TotalAppend(before, [t[k]]);
      TotalAppend(before, after);
    }
  }

  /** The mean of one term is its value, and the mean of two groups is the mean of their means weighted by
      what each group weighs. */
  lemma {:induction false} MeanSplits(t: Term, a: seq<Term>, b: seq<Term>)
    requires t.weight > 0.0 && Positive(a) && Positive(b) && a != [] && b != []
    ensures Mean([t]) == t.value && Weights([t]) == t.weight && Weights(a + b) == Weights(a) + Weights(b)
    ensures Mean(a + b) * Weights(a + b) == Mean(a) * Weights(a) + Mean(b) * Weights(b)
  {
    hide Total, Weights, Mean;
    TotalAppend(a, b);
    TotalOfTerm(t);
    MeanTimesWeights([t]);
    MeanTimesWeights(a);
    MeanTimesWeights(b);
    MeanTimesWeights(a + b);
    SameFactor(Mean([t]), t.value, t.weight);
  }

  lemma {:induction false} TotalOfTerm(t: Term)
    ensures Total([t]) == t.value * t.weight && Weights([t]) == t.weight
  {
    assert [t][1..] == [];
    assert Total([]) == 0.0 && Weights([]) == 0.0;
  }

  lemma {:induction false} MeanTimesWeights(terms: seq<Term>)
    requires Positive(terms) && terms != []
    ensures Mean(terms) * Weights(terms) == Total(terms)
  {
    WeightsPositive(terms);
  }

  lemma {:induction false} SameFactor(x: real, y: real, w: real)
    requires w > 0.0 && x * w == y * w
    ensures x == y
  {
    if x < y { ScaleLess(x, y, w); }
    if y < x { ScaleLess(y, x, w); }
  }

  function Scale(k: real): Term -> Term { (t: Term) => t.(weight := k * t.weight) }

  lemma {:induction false} TotalScales(terms: seq<Term>, k: real)
    ensures Total(Map(Scale(k), terms)) == k * Total(terms) && Weights(Map(Scale(k), terms)) == k * Weights(terms)
  {
    if terms == [] {
    } else {
      var t := terms[0];
      MapTail(Scale(k), terms);
      TotalScales(terms[1..], k);
      assert t.value * (k * t.weight) == k * (t.value * t.weight);
      assert k * (ValueWeight(t) + Total(terms[1..])) == k * ValueWeight(t) + k * Total(terms[1..]);
      assert k * (t.weight + Weights(terms[1..])) == k * t.weight + k * Weights(terms[1..]);
    }
  }

  lemma {:induction false} CancelFactor(k: real, a: real, w: real)
    requires k > 0.0 && w > 0.0
    ensures k * w > 0.0 && (k * a) / (k * w) == a / w
  {
    var q := a / w;
    assert k * w > 0.0;
    assert q * w == a;
    assert q * (k * w) == k * (q * w);
  }

  /** Multiplying every weight by the same positive factor leaves the mean alone. */
  lemma {:induction false} MeanScaleInvariant(terms: seq<Term>, k: real)
    requires Positive(terms) && terms != [] && k > 0.0
    ensures Positive(Map(Scale(k), terms)) && Mean(Map(Scale(k), terms)) == Mean(terms)
  {
    hide Total, Weights;
    forall i | 0 <= i < |terms| ensures k * terms[i].weight > 0.0 {}
    TotalScales(terms, k);
    WeightsPositive(terms);
    CancelFactor(k, Total(terms), Weights(terms));
    var scaled := Map(Scale(k), terms);
    assert Positive(scaled) && scaled != [];
    assert Mean(scaled) == Total(scaled) / Weights(scaled);
  }

  // ---------------------------------------------------------------- rounding to two places

  /** `Math.round(value * 100)`: the nearest hundredth, halves up. */
  function Hundredths(value: real): int { (value * 100.0 + 0.5).Floor }

  function Round2(value: real): real { Hundredths(value) as real / 100.0 }

  lemma {:induction false} Round2Monotone(a: real, b: real)
    requires a <= b
    ensures Round2(a) <= Round2(b)
  {
    FloorMonotone(a * 100.0 + 0.5, b * 100.0 + 0.5);
    assert Hundredths(a) as real <= Hundredths(b) as real;
  }

  lemma {:induction false} FloorMonotone(a: real, b: real)
    requires a <= b
    ensures a.Floor <= b.Floor
  {
    assert a.Floor as real <= a && b < b.Floor as real + 1.0;
  }

  lemma Round2Error(value: real)
    ensures value - 0.005 < Round2(value) <= value + 0.005
  {
  }

  lemma {:induction false} Round2OnGrid(k: int)
    ensures Round2(k as real / 100.0) == k as real / 100.0
  {
    assert (k as real / 100.0) * 100.0 == k as real;
    assert (k as real + 0.5).Floor == k;
  }

  /** The least hundredth that is not below `b`. */
  function CeilHundredths(b: real): int { -((-(b * 100.0)).Floor) }

  /** A rounded value reaches a boundary exactly when the value itself comes within half a hundredth
      of the boundary's own hundredth. */
  lemma {:induction false} RoundedReaches(value: real, b: real)
    ensures Round2(value) >= b <==> value >= CeilHundredths(b) as real / 100.0 - 0.005
  {
    var g := CeilHundredths(b);
    assert g as real >= b * 100.0 > g as real - 1.0;
    assert Round2(value) >= b <==> Hundredths(value) as real >= b * 100.0;
    assert Hundredths(value) as real >= b * 100.0 <==> Hundredths(value) >= g;
    assert Hundredths(value) >= g <==> value * 100.0 + 0.5 >= g as real;
  }
}
