/** `Array.prototype.sort` with a comparator, as a stable insertion sort. */
module Sorting {
  import opened Prelude

  ghost predicate TotalPreorder<T(!new)>(leq: (T, T) -> bool) {
    && (forall a, b :: leq(a, b) || leq(b, a))
    && (forall a, b, c :: leq(a, b) && leq(b, c) ==> leq(a, c))
  }

  ghost predicate SortedBy<T>(leq: (T, T) -> bool, s: seq<T>) {
    forall i, j :: 0 <= i < j < |s| ==> leq(s[i], s[j])
  }

  /** Places `x`, which precedes all of `s` in the original order, before the first element it
      does not have to follow: equal elements keep their order. */
  function Insert<T>(leq: (T, T) -> bool, x: T, s: seq<T>): seq<T> {
    if s == [] || leq(x, s[0]) then [x] + s else [s[0]] + Insert(leq, x, s[1..])
  }

  function Sort<T>(leq: (T, T) -> bool, s: seq<T>): seq<T> {
    if s == [] then [] else Insert(leq, s[0], Sort(leq, s[1..]))
  }

  lemma {:induction false} InsertPermutes<T>(leq: (T, T) -> bool, x: T, s: seq<T>)
    ensures multiset(Insert(leq, x, s)) == multiset{x} + multiset(s)
  {
    if s != [] && !leq(x, s[0]) {
      InsertPermutes(leq, x, s[1..]);
      assert s == [s[0]] + s[1..];
    }
  }

  lemma {:induction false} SortPermutes<T>(leq: (T, T) -> bool, s: seq<T>)
    ensures multiset(Sort(leq, s)) == multiset(s)
    ensures |Sort(leq, s)| == |s|
  {
    if s == [] {
    } else {
      SortPermutes(leq, s[1..]);
      InsertPermutes(leq, s[0], Sort(leq, s[1..]));
      assert s == [s[0]] + s[1..];
    }
    assert |multiset(Sort(leq, s))| == |multiset(s)|;
  }

  lemma {:induction false} InsertSorts<T(!new)>(leq: (T, T) -> bool, x: T, s: seq<T>)
    requires TotalPreorder(leq) && SortedBy(leq, s)
    ensures SortedBy(leq, Insert(leq, x, s))
  {
    if s != [] && !leq(x, s[0]) {
      InsertSorts(leq, x, s[1..]);
      InsertPermutes(leq, x, s[1..]);
      var tail := Insert(leq, x, s[1..]);
      forall k | 0 <= k < |tail| ensures leq(s[0], tail[k]) {
        assert tail[k] in multiset(tail);
        if tail[k] != x { assert tail[k] in s[1..]; }
      }
    }
  }

  lemma {:induction false} SortSorts<T(!new)>(leq: (T, T) -> bool, s: seq<T>)
    requires TotalPreorder(leq)
    ensures SortedBy(leq, Sort(leq, s))
  {
    if s == [] {
    } else {
      SortSorts(leq, s[1..]);
      InsertSorts(leq, s[0], Sort(leq, s[1..]));
    }
  }

  /** No two different elements tie. */
  ghost predicate NoTies<T(!new)>(leq: (T, T) -> bool, s: seq<T>) {
    forall a, b :: a in s && b in s && leq(a, b) && leq(b, a) ==> a == b
  }

  lemma TailSorted<T(!new)>(leq: (T, T) -> bool, s: seq<T>)
    requires SortedBy(leq, s) && s != []
    ensures SortedBy(leq, s[1..]) && (NoTies(leq, s) ==> NoTies(leq, s[1..]))
  {
  }

  /** Two sorted arrangements of the same elements are equal when no two different elements tie. */
  lemma {:induction false} SortedUnique<T(!new)>(leq: (T, T) -> bool, s: seq<T>, t: seq<T>)
    requires SortedBy(leq, s) && SortedBy(leq, t) && multiset(s) == multiset(t)
    requires NoTies(leq, s)
    ensures s == t
  {
    hide SortedBy, NoTies;
    assert |s| == |multiset(s)| == |multiset(t)| == |t|;
    if s == [] {
    } else {
      SameHead(leq, s, t);
      TailSorted(leq, s);
      TailSorted(leq, t);
      MultisetTail(s);
      MultisetTail(t);
      SortedUnique(leq, s[1..], t[1..]);
      assert s == [s[0]] + s[1..] && t == [t[0]] + t[1..];
    }
  }

  lemma {:induction false} SameHead<T(!new)>(leq: (T, T) -> bool, s: seq<T>, t: seq<T>)
    requires SortedBy(leq, s) && SortedBy(leq, t) && multiset(s) == multiset(t) && s != [] && t != []
    requires NoTies(leq, s)
    ensures s[0] == t[0]
  {
    assert s[0] in multiset(t) && t[0] in multiset(s);
    var i :| 0 <= i < |t| && t[i] == s[0];
    var j :| 0 <= j < |s| && s[j] == t[0];
  }

  /** Sorting commutes with any relabelling the comparator cannot see. */
  lemma {:induction false} InsertCommutes<T(!new)>(leq: (T, T) -> bool, f: T -> T, x: T, s: seq<T>)
    requires forall a, b :: leq(f(a), f(b)) == leq(a, b)
    ensures Insert(leq, f(x), Map(f, s)) == Map(f, Insert(leq, x, s))
  {
    if s != [] && !leq(x, s[0]) {
      InsertCommutes(leq, f, x, s[1..]);
      MapTail(f, s);
      MapTail(f, Insert(leq, x, s));
    }
  }

  /** Two elements that tie stay next to each other, in the order in which they came. */
  lemma {:induction false} TiedKeepOrder<T(!new)>(leq: (T, T) -> bool, a: T, b: T, s: seq<T>) returns (k: nat)
    requires TotalPreorder(leq) && leq(a, b) && leq(b, a)
    ensures k <= |s|
    ensures Insert(leq, a, Insert(leq, b, s)) == s[..k] + [a, b] + s[k..]
    ensures Insert(leq, b, Insert(leq, a, s)) == s[..k] + [b, a] + s[k..]
  {
    if s == [] || leq(a, s[0]) {
      k := 0;
      assert s == [] || leq(b, s[0]);
    } else {
      assert !leq(b, s[0]);
      var n := TiedKeepOrder(leq, a, b, s[1..]);
      k := n + 1;
      assert s[..k] == [s[0]] + s[1..][..n] && s[k..] == s[1..][n..];
      assert Insert(leq, b, s) == [s[0]] + Insert(leq, b, s[1..]);
      assert Insert(leq, a, s) == [s[0]] + Insert(leq, a, s[1..]);
    }
  }

  lemma {:induction false} SortCommutes<T(!new)>(leq: (T, T) -> bool, f: T -> T, s: seq<T>)
    requires forall a, b :: leq(f(a), f(b)) == leq(a, b)
    ensures Sort(leq, Map(f, s)) == Map(f, Sort(leq, s))
  {
    if s == [] {
    } else {
      SortCommutes(leq, f, s[1..]);
      MapTail(f, s);
      InsertCommutes(leq, f, s[0], Sort(leq, s[1..]));
    }
  }
}
