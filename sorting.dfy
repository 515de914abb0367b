/**
 * A stable insertion sort over a total preorder, and order-keeping filters.
 * Python's `list.sort` is stable.  For `DataFrame.sort_values` pandas does
 * not promise an order among rows whose keys tie; the model keeps their
 * input order there too.  `InsertionSort` inserts the head of the list in
 * front of every element of the sorted tail whose key it does not exceed,
 * and `InsertionSortStable` proves that it keeps the input order among
 * equal keys.
 */
module Sorting {

  /** `le` is total and transitive: a sort key comparison. */
  ghost predicate TotalPreorder<T(!new)>(le: (T, T) -> bool)
  {
    && (forall a, b :: le(a, b) || le(b, a))
    && (forall a, b, c :: le(a, b) && le(b, c) ==> le(a, c))
  }

  predicate Sorted<T>(s: seq<T>, le: (T, T) -> bool)
  {
    forall i, j :: 0 <= i < j < |s| ==> le(s[i], s[j])
  }

  function Insert<T>(x: T, s: seq<T>, le: (T, T) -> bool): (r: seq<T>)
    ensures |r| == |s| + 1
    ensures multiset(r) == multiset(s) + multiset{x}
  {
    if s == [] || le(x, s[0]) then [x] + s
    else
      assert s == [s[0]] + s[1..];
      [s[0]] + Insert(x, s[1..], le)
  }

  function InsertionSort<T>(s: seq<T>, le: (T, T) -> bool): (r: seq<T>)
    ensures |r| == |s|
    ensures multiset(r) == multiset(s)
  {
    if s == [] then []
    else
      assert s == [s[0]] + s[1..];
      Insert(s[0], InsertionSort(s[1..], le), le)
  }

  lemma {:induction false} InsertSorted<T(!new)>(x: T, s: seq<T>, le: (T, T) -> bool)
    requires TotalPreorder(le)
    requires Sorted(s, le)
    ensures Sorted(Insert(x, s, le), le)
  {
    if s == [] || le(x, s[0]) {
      var r := [x] + s;
      forall i, j | 0 <= i < j < |r| ensures le(r[i], r[j]) {
        if i == 0 && j > 1 {
          assert le(x, s[0]) && le(s[0], s[j - 1]);
        }
      }
    } else {
      InsertSorted(x, s[1..], le);
      forall y | y in s[1..] ensures le(s[0], y) {
        var k :| 0 <= k < |s[1..]| && s[1..][k] == y;
        assert s[k + 1] == y;
      }
      InsertLowerBound(s[0], x, s[1..], le);
      SortedCons(s[0], Insert(x, s[1..], le), le);
    }
  }

  /** A lower bound of `x` and of every element of `s` bounds the insertion. */
  lemma InsertLowerBound<T(!new)>(b: T, x: T, s: seq<T>, le: (T, T) -> bool)
    requires le(b, x) && forall y :: y in s ==> le(b, y)
    ensures forall y :: y in Insert(x, s, le) ==> le(b, y)
  {
    forall y | y in Insert(x, s, le) ensures le(b, y) {
      assert y in multiset(Insert(x, s, le));
      if y != x {
        assert y in multiset(s);
      }
    }
  }

  /** A lower bound of a sorted list can head it. */
  lemma SortedCons<T>(h: T, t: seq<T>, le: (T, T) -> bool)
    requires Sorted(t, le) && forall y :: y in t ==> le(h, y)
    ensures Sorted([h] + t, le)
  {
    var r := [h] + t;
    forall i, j | 0 <= i < j < |r| ensures le(r[i], r[j]) {
      if i == 0 {
        assert r[j] == t[j - 1] && t[j - 1] in t;
      } else {
        assert r[i] == t[i - 1] && r[j] == t[j - 1];
      }
    }
  }

  lemma {:induction false} InsertionSortSorted<T(!new)>(s: seq<T>, le: (T, T) -> bool)
    requires TotalPreorder(le)
    ensures Sorted(InsertionSort(s, le), le)
  {
    if s != [] {
      InsertionSortSorted(s[1..], le);
      InsertSorted(s[0], InsertionSort(s[1..], le), le);
    }
  }

  /** Sorting a sequence the preorder already orders changes nothing. */
  lemma {:induction false} InsertionSortOfSorted<T>(s: seq<T>, le: (T, T) -> bool)
    requires Sorted(s, le)
    ensures InsertionSort(s, le) == s
  {
    if s != [] {
      assert Sorted(s[1..], le) by {
        forall i, j | 0 <= i < j < |s[1..]| ensures le(s[1..][i], s[1..][j]) {
          assert s[1..][i] == s[i + 1] && s[1..][j] == s[j + 1];
        }
      }
      InsertionSortOfSorted(s[1..], le);
      if |s| > 1 {
        assert le(s[0], s[1]);
      }
    }
  }

  /** The elements of `s` that satisfy `keep`, in order: a boolean-mask
      selection. */
  function Filter<T(!new)>(s: seq<T>, keep: T -> bool): (r: seq<T>)
    ensures |r| <= |s|
    ensures forall x :: x in r <==> x in s && keep(x)
  {
    if s == [] then []
    else
      var rest := Filter(s[1..], keep);
      assert forall x :: x in s <==> x == s[0] || x in s[1..];
      if keep(s[0]) then [s[0]] + rest else rest
  }

  /** Two masks applied in turn are one mask with their conjunction. */
  lemma {:induction false} FilterFilter<T(!new)>(s: seq<T>, p: T -> bool, q: T -> bool, pq: T -> bool)
    requires forall x :: pq(x) == (p(x) && q(x))
    ensures Filter(Filter(s, p), q) == Filter(s, pq)
  {
    if s != [] {
      FilterFilter(s[1..], p, q, pq);
      if p(s[0]) {
        assert Filter(s, p)[1..] == Filter(s[1..], p);
      }
    }
  }

  /** Masks that agree everywhere select the same elements. */
  lemma {:induction false} FilterExt<T(!new)>(s: seq<T>, p: T -> bool, q: T -> bool)
    requires forall x :: p(x) == q(x)
    ensures Filter(s, p) == Filter(s, q)
  {
    if s != [] {
      FilterExt(s[1..], p, q);
    }
  }

  lemma {:induction false} FilterConcat<T(!new)>(a: seq<T>, b: seq<T>, keep: T -> bool)
    ensures Filter(a + b, keep) == Filter(a, keep) + Filter(b, keep)
  {
    if a != [] {
      assert (a + b)[1..] == a[1..] + b;
      FilterConcat(a[1..], b, keep);
    } else {
      assert a + b == b;
    }
  }

  /** Inserting `x` does not move it past an element that `keep` also
      selects, when all selected elements have equal keys. */
  lemma {:induction false} InsertFilter<T(!new)>(x: T, s: seq<T>, le: (T, T) -> bool, keep: T -> bool)
    requires forall a, b :: keep(a) && keep(b) ==> le(a, b)
    ensures Filter(Insert(x, s, le), keep) == (if keep(x) then [x] else []) + Filter(s, keep)
  {
    if s == [] || le(x, s[0]) {
      assert ([x] + s)[1..] == s;
    } else {
      var t := Insert(x, s[1..], le);
      assert Insert(x, s, le) == [s[0]] + t;
      assert ([s[0]] + t)[1..] == t;
      InsertFilter(x, s[1..], le, keep);
      assert !(keep(x) && keep(s[0]));
    }
  }

  /** The sort is stable: the elements of any one key keep their input
      order.  `keep` selects elements whose keys are all equal. */
  lemma {:induction false} InsertionSortStable<T(!new)>(s: seq<T>, le: (T, T) -> bool, keep: T -> bool)
    requires forall a, b :: keep(a) && keep(b) ==> le(a, b)
    ensures Filter(InsertionSort(s, le), keep) == Filter(s, keep)
  {
    if s != [] {
      InsertionSortStable(s[1..], le, keep);
      InsertFilter(s[0], InsertionSort(s[1..], le), le, keep);
    }
  }

  /** The sum of `f` over a sequence, accumulated from the front. */
  function SumOf<T>(s: seq<T>, f: T -> int): int
  {
    if s == [] then 0 else SumOf(s[..|s| - 1], f) + f(s[|s| - 1])
  }

  lemma {:induction false} SumOfConcat<T>(u: seq<T>, v: seq<T>, f: T -> int)
    ensures SumOf(u + v, f) == SumOf(u, f) + SumOf(v, f)
  {
    if v != [] {
      assert (u + v)[..|u + v| - 1] == u + v[..|v| - 1];
      assert (u + v)[|u + v| - 1] == v[|v| - 1];
      SumOfConcat(u, v[..|v| - 1], f);
    } else {
      assert u + v == u;
    }
  }

  /** A sum does not depend on the order of the summands. */
  lemma {:induction false} SumOfPermutation<T>(a: seq<T>, b: seq<T>, f: T -> int)
    requires multiset(a) == multiset(b)
    ensures SumOf(a, f) == SumOf(b, f)
  {
    if a != [] {
      var front := a[..|a| - 1];
      var x := a[|a| - 1];
      assert a == front + [x];
      assert x in multiset(b);
      var i :| 0 <= i < |b| && b[i] == x;
      var rest := b[..i] + b[i + 1..];
      assert multiset(front) == multiset(rest) by {
        RemoveAt(b, i);
        assert multiset(a) == multiset(front) + multiset{x};
        assert multiset(front) == multiset(a) - multiset{x};
        assert multiset(rest) == multiset(b) - multiset{x};
      }
      SumOfPermutation(front, rest, f);
      SumOfRemove(b, i, f);
    }
  }

  lemma SplitAt<T>(b: seq<T>, i: nat)
    requires i < |b|
    ensures b == b[..i] + [b[i]] + b[i + 1..]
  {
  }

  /** Taking out element `i` takes one copy of it out of the multiset. */
  lemma RemoveAt<T>(b: seq<T>, i: nat)
    requires i < |b|
    ensures multiset(b) == multiset(b[..i] + b[i + 1..]) + multiset{b[i]}
  {
    SplitAt(b, i);
  }

  lemma SumOfSnoc<T>(u: seq<T>, x: T, f: T -> int)
    ensures SumOf(u + [x], f) == SumOf(u, f) + f(x)
  {
    assert (u + [x])[..|u|] == u;
  }

  /** Taking out element `i` takes its summand out of the sum. */
  lemma SumOfRemove<T>(b: seq<T>, i: nat, f: T -> int)
    requires i < |b|
    ensures SumOf(b, f) == SumOf(b[..i] + b[i + 1..], f) + f(b[i])
  {
    var u, x, v := b[..i], b[i], b[i + 1..];
    SplitAt(b, i);
    SumOfConcat(u + [x], v, f);
    SumOfSnoc(u, x, f);
    SumOfConcat(u, v, f);
  }

  /** With non-negative summands a prefix sums to no more than the whole. */
  lemma {:induction false} SumOfPrefix<T>(s: seq<T>, k: nat, f: T -> int)
    requires k <= |s|
    requires forall x :: x in s ==> f(x) >= 0
    ensures SumOf(s[..k], f) <= SumOf(s, f)
  {
    if k < |s| {
      assert s[..|s| - 1][..k] == s[..k];
      SumOfPrefix(s[..|s| - 1], k, f);
      assert s[..|s|] == s;
    } else {
      assert s[..k] == s;
    }
  }

  /** Pointwise smaller summands give a smaller sum. */
  lemma {:induction false} SumOfMonotone<T>(s: seq<T>, f: T -> int, g: T -> int)
    requires forall x :: x in s ==> f(x) <= g(x)
    ensures SumOf(s, f) <= SumOf(s, g)
  {
    if s != [] {
      SumOfMonotone(s[..|s| - 1], f, g);
    }
  }

  /** No element occurs twice. */
  predicate Distinct<T(==)>(s: seq<T>)
  {
    forall i, j :: 0 <= i < j < |s| ==> s[i] != s[j]
  }

  lemma {:induction false} DistinctCount<T>(s: seq<T>, x: T)
    requires Distinct(s)
    ensures multiset(s)[x] <= 1
  {
    if s != [] {
      var t := s[..|s| - 1];
      assert s == t + [s[|s| - 1]];
      assert Distinct(t) by {
        forall i, j | 0 <= i < j < |t| ensures t[i] != t[j] {
          assert t[i] == s[i] && t[j] == s[j];
        }
      }
      DistinctCount(t, x);
      if x == s[|s| - 1] {
        forall i | 0 <= i < |t| ensures t[i] != x {
          assert t[i] == s[i];
        }
        assert x !in multiset(t);
      }
    }
  }

  /** A rearrangement of a sequence without repetitions has none either. */
  lemma DistinctPermutation<T>(a: seq<T>, b: seq<T>)
    requires Distinct(a) && multiset(a) == multiset(b)
    ensures Distinct(b)
  {
    forall i, j | 0 <= i < j < |b| ensures b[i] != b[j] {
      if b[i] == b[j] {
        var x := b[i];
        assert b == b[..i] + [x] + b[i + 1..j] + [x] + b[j + 1..];
        assert multiset(b)[x] >= 2 by {
          assert multiset(b) == multiset(b[..i]) + multiset([x]) + multiset(b[i + 1..j])
            + multiset([x]) + multiset(b[j + 1..]);
        }
        DistinctCount(a, x);
      }
    }
  }
}
