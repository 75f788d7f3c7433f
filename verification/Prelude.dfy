/** Small vocabulary shared by the models: optional values, sums over sequences and
    the rounding used throughout the repository. */
module Prelude {

  datatype Option<+T> = None | Some(value: T)

  function Min(a: int, b: int): int { if a <= b then a else b }

  function Max(a: int, b: int): int { if a <= b then b else a }

  function Map<T, U>(f: T -> U, xs: seq<T>): (r: seq<U>)
    ensures |r| == |xs| && forall i :: 0 <= i < |xs| ==> r[i] == f(xs[i])
  {
    seq(|xs|, i requires 0 <= i < |xs| => f(xs[i]))
  }

  lemma MapTail<T, U>(f: T -> U, xs: seq<T>)
    requires xs != []
    ensures Map(f, xs) == [f(xs[0])] + Map(f, xs[1..])
  {
  }

  // ---------------------------------------------------------------- integer sums

  /** The sum of `f` over the elements of `xs`. */
  function SumOf<T>(xs: seq<T>, f: T -> int): int {
    if xs == [] then 0 else f(xs[0]) + SumOf(xs[1..], f)
  }

  lemma {:induction false} SumOfAppend<T>(xs: seq<T>, ys: seq<T>, f: T -> int)
    ensures SumOf(xs + ys, f) == SumOf(xs, f) + SumOf(ys, f)
  {
    if xs == [] {
      assert xs + ys == ys;
    } else {
      assert (xs + ys)[1..] == xs[1..] + ys;
      SumOfAppend(xs[1..], ys, f);
    }
  }

  lemma {:induction false} SumOfFour<T>(a: T, b: T, c: T, d: T, f: T -> int)
    ensures SumOf([a, b, c, d], f) == f(a) + f(b) + f(c) + f(d)
  {
    assert [d][1..] == [] && [c, d][1..] == [d] && [b, c, d][1..] == [c, d] && [a, b, c, d][1..] == [b, c, d];
    assert SumOf([c, d], f) == f(c) + SumOf([d], f);
    assert SumOf([b, c, d], f) == f(b) + SumOf([c, d], f);
  }

  lemma {:induction false} MultisetTail<T>(xs: seq<T>)
    requires xs != []
    ensures multiset(xs[1..]) == multiset(xs) - multiset{xs[0]}
  {
    assert xs == [xs[0]] + xs[1..];
  }

  /** Where a permutation puts the first element, and what surrounds it there. */
  lemma {:induction false} FirstInPermutation<T>(xs: seq<T>, ys: seq<T>) returns (k: nat)
    requires multiset(xs) == multiset(ys) && xs != []
    ensures k < |ys| && ys[k] == xs[0] && ys == ys[..k] + [xs[0]] + ys[k + 1..]
    ensures multiset(xs[1..]) == multiset(ys[..k] + ys[k + 1..])
  {
    assert xs[0] in multiset(ys);
    k :| 0 <= k < |ys| && ys[k] == xs[0];
    assert ys == ys[..k] + [xs[0]] + ys[k + 1..];
    MultisetTail(xs);
    assert multiset(ys) == multiset(ys[..k]) + multiset{xs[0]} + multiset(ys[k + 1..]);
  }

  /** A sequence is any of its elements and the others. */
  lemma {:induction false} WithoutOne<T>(xs: seq<T>, x: T) returns (rest: seq<T>)
    requires x in xs
    ensures multiset([x] + rest) == multiset(xs)
  {
    var i :| 0 <= i < |xs| && xs[i] == x;
    rest := xs[..i] + xs[i + 1..];
    assert xs == xs[..i] + [x] + xs[i + 1..];
    MultisetAround(xs[..i], x, xs[i + 1..]);
  }

  lemma MultisetAround<T>(front: seq<T>, x: T, back: seq<T>)
    ensures multiset(front + [x] + back) == multiset{x} + multiset(front + back)
  {
  }

  lemma MapAround<T, U>(f: T -> U, front: seq<T>, x: T, back: seq<T>)
    ensures Map(f, front + [x] + back) == Map(f, front) + [f(x)] + Map(f, back)
    ensures Map(f, front + back) == Map(f, front) + Map(f, back)
  {
  }

  lemma {:induction false} MapPermutes<T, U>(f: T -> U, xs: seq<T>, ys: seq<T>)
    requires multiset(xs) == multiset(ys)
    ensures multiset(Map(f, xs)) == multiset(Map(f, ys))
  {
    if xs == [] {
      assert |ys| == |multiset(ys)| == 0;
    } else {
      var k := FirstInPermutation(xs, ys);
      var front, back := ys[..k], ys[k + 1..];
      MapPermutes(f, xs[1..], front + back);
      MapTail(f, xs);
      MapAround(f, front, xs[0], back);
      MultisetAround(Map(f, front), f(xs[0]), Map(f, back));
    }
  }

  /** A sum does not depend on the order of its terms. */
  lemma {:induction false} SumOfPermutation<T>(xs: seq<T>, ys: seq<T>, f: T -> int)
    requires multiset(xs) == multiset(ys)
    ensures SumOf(xs, f) == SumOf(ys, f)
  {
    if xs == [] {
      assert |ys| == |multiset(ys)| == 0;
    } else {
      var k := FirstInPermutation(xs, ys);
      SumOfPermutation(xs[1..], ys[..k] + ys[k + 1..], f);
      SumOfAppend(ys[..k] + [ys[k]], ys[k + 1..], f);
      SumOfAppend(ys[..k], [ys[k]], f);
      SumOfAppend(ys[..k], ys[k + 1..], f);
    }
  }

  /** Sums of terms that split pointwise split as a whole. */
  lemma {:induction false} SumOfPointwise<T>(xs: seq<T>, ys: seq<T>, f: T -> int, g: T -> int, h: T -> int)
    requires |xs| == |ys| && forall i :: 0 <= i < |xs| ==> f(xs[i]) == g(ys[i]) + h(ys[i])
    ensures SumOf(xs, f) == SumOf(ys, g) + SumOf(ys, h)
  {
    if xs == [] {
    } else {
      SumOfPointwise(xs[1..], ys[1..], f, g, h);
    }
  }

  lemma {:induction false} SumOfEqual<T, U>(xs: seq<T>, ys: seq<U>, f: T -> int, g: U -> int)
    requires |xs| == |ys| && forall i :: 0 <= i < |xs| ==> f(xs[i]) == g(ys[i])
    ensures SumOf(xs, f) == SumOf(ys, g)
  {
    if xs == [] {
    } else {
      SumOfEqual(xs[1..], ys[1..], f, g);
    }
  }

  /** Changing one element changes a sum by the difference. */
  lemma {:induction false} SumOfUpdate<T>(xs: seq<T>, k: nat, x: T, f: T -> int)
    requires k < |xs|
    ensures SumOf(xs[k := x], f) == SumOf(xs, f) - f(xs[k]) + f(x)
  {
    if k > 0 {
      assert xs[k := x][1..] == xs[1..][k - 1 := x];
      SumOfUpdate(xs[1..], k - 1, x, f);
    } else {
      assert xs[0 := x][1..] == xs[1..];
    }
  }

  lemma {:induction false} SumOfOne<T>(xs: seq<T>, f: T -> int, k: nat)
    requires k < |xs| && forall i :: 0 <= i < |xs| && i != k ==> f(xs[i]) == 0
    ensures SumOf(xs, f) == f(xs[k])
  {
    if k == 0 {
      SumOfZero(xs[1..], f);
    } else {
      SumOfOne(xs[1..], f, k - 1);
    }
  }

  lemma {:induction false} SumOfZero<T>(xs: seq<T>, f: T -> int)
    requires forall i :: 0 <= i < |xs| ==> f(xs[i]) == 0
    ensures SumOf(xs, f) == 0
  {
    if xs == [] {
    } else {
      SumOfZero(xs[1..], f);
    }
  }

  // ---------------------------------------------------------------- text

  /** JavaScript's `<=` on strings: lexicographic by code unit. */
  predicate TextLeq(a: string, b: string) {
    a == [] || (b != [] && (a[0] < b[0] || (a[0] == b[0] && TextLeq(a[1..], b[1..]))))
  }

  /** The texts first differ at `k`, where the first has the smaller character. */
  ghost predicate LessAt(a: string, b: string, k: int) {
    0 <= k < |a| && k < |b| && a[k] < b[k] && forall i :: 0 <= i < k ==> a[i] == b[i]
  }

  /** That is, `a` begins `b`, or has the smaller character where they first differ. */
  lemma {:induction false} TextLeqIff(a: string, b: string)
    ensures TextLeq(a, b) <==> a <= b || exists k :: LessAt(a, b, k)
  {
    hide LessAt;
    if a != [] && b != [] {
      TextLeqIff(a[1..], b[1..]);
      LessAtTail(a, b);
      assert a == [a[0]] + a[1..] && b == [b[0]] + b[1..];
    } else {
      forall k ensures !LessAt(a, b, k) { NeverLess(a, b, k); }
    }
  }

  lemma NeverLess(a: string, b: string, k: int)
    requires a == [] || b == []
    ensures !LessAt(a, b, k)
  {
  }

  lemma {:induction false} LessAtTail(a: string, b: string)
    requires a != [] && b != []
    ensures (exists k :: LessAt(a, b, k))
       <==> a[0] < b[0] || (a[0] == b[0] && exists k :: LessAt(a[1..], b[1..], k))
  {
    if k :| LessAt(a, b, k) && k > 0 { assert LessAt(a[1..], b[1..], k - 1); }
    if a[0] < b[0] { assert LessAt(a, b, 0); }
    if k :| a[0] == b[0] && LessAt(a[1..], b[1..], k) {
      assert forall i :: 0 < i <= k ==> a[i] == a[1..][i - 1] && b[i] == b[1..][i - 1];
      assert LessAt(a, b, k + 1);
    }
  }

  lemma {:induction false} TextLeqTotal(a: string, b: string)
    ensures TextLeq(a, b) || TextLeq(b, a)
  {
    if a == [] || b == [] {
    } else {
      TextLeqTotal(a[1..], b[1..]);
    }
  }

  lemma {:induction false} TextLeqAntisymmetric(a: string, b: string)
    requires TextLeq(a, b) && TextLeq(b, a)
    ensures a == b
  {
    if a == [] || b == [] {
    } else {
      TextLeqAntisymmetric(a[1..], b[1..]);
      assert a == [a[0]] + a[1..] && b == [b[0]] + b[1..];
    }
  }

  lemma {:induction false} TextLeqTransitive(a: string, b: string, c: string)
    requires TextLeq(a, b) && TextLeq(b, c)
    ensures TextLeq(a, c)
  {
    if a != [] && a[0] == b[0] && b[0] == c[0] { TextLeqTransitive(a[1..], b[1..], c[1..]); }
  }
}
