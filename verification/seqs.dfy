/** Order-preserving filtering, occurrence counting and the subsequence relation. */
module Seqs {

  /** The elements of `s` that satisfy `p`, in their original order (`Array.prototype.filter`). */
  function Filter<T>(s: seq<T>, p: T -> bool): (r: seq<T>)
    ensures |r| <= |s|
    ensures forall i :: 0 <= i < |r| ==> p(r[i])
    decreases |s|
  {
    if |s| == 0 then []
    else (if p(s[0]) then [s[0]] else []) + Filter(s[1..], p)
  }

  /** How often `x` occurs in `s`. */
  function Count<T(==)>(s: seq<T>, x: T): nat
    decreases |s|
  {
    if |s| == 0 then 0 else (if s[0] == x then 1 else 0) + Count(s[1..], x)
  }

  /** `a` is obtained from `b` by deleting elements, without reordering the rest. */
  predicate IsSubsequence<T(==)>(a: seq<T>, b: seq<T>)
    decreases |b|
  {
    if |a| == 0 then true
    else if |b| == 0 then false
    else (a[0] == b[0] && IsSubsequence(a[1..], b[1..])) || IsSubsequence(a, b[1..])
  }

  lemma {:induction false} CountAppend<T>(a: seq<T>, b: seq<T>, x: T)
    ensures Count(a + b, x) == Count(a, x) + Count(b, x)
    decreases |a|
  {
    if |a| > 0 {
      assert (a + b)[1..] == a[1..] + b;
      CountAppend(a[1..], b, x);
    } else {
      assert a + b == b;
    }
  }

  lemma {:induction false} CountPositive<T>(s: seq<T>, x: T)
    ensures Count(s, x) > 0 <==> x in s
    decreases |s|
  {
    if |s| > 0 {
      CountPositive(s[1..], x);
      assert x in s <==> s[0] == x || x in s[1..];
    }
  }

  /** Filtering keeps every occurrence of an accepted value and none of a rejected one. */
  lemma {:induction false} CountFilter<T>(s: seq<T>, p: T -> bool, x: T)
    ensures Count(Filter(s, p), x) == if p(x) then Count(s, x) else 0
    decreases |s|
  {
    if |s| > 0 {
      CountFilter(s[1..], p, x);
      CountAppend(if p(s[0]) then [s[0]] else [], Filter(s[1..], p), x);
    }
  }

  /** Filtering keeps every copy of an accepted value and no copy of a rejected one, for every value at once. */
  lemma FilterCounts<T>(s: seq<T>, p: T -> bool)
    ensures forall x :: Count(Filter(s, p), x) == if p(x) then Count(s, x) else 0
  {
    forall x
      ensures Count(Filter(s, p), x) == if p(x) then Count(s, x) else 0
    {
      CountFilter(s, p, x);
    }
  }

  /** Membership in a filtered sequence: both directions. */
  lemma InFilter<T>(s: seq<T>, p: T -> bool, x: T)
    ensures x in Filter(s, p) <==> x in s && p(x)
  {
    CountFilter(s, p, x);
    CountPositive(Filter(s, p), x);
    CountPositive(s, x);
  }

  /** Membership in a filtered sequence, for every value at once. */
  lemma FilterMembership<T>(s: seq<T>, p: T -> bool)
    ensures forall x :: x in Filter(s, p) <==> x in s && p(x)
  {
    forall x
      ensures x in Filter(s, p) <==> x in s && p(x)
    {
      InFilter(s, p, x);
    }
  }

  lemma {:induction false} SubsequenceOfTail<T>(a: seq<T>, b: seq<T>)
    requires |b| > 0
    requires IsSubsequence(a, b[1..])
    ensures IsSubsequence(a, b)
  {
  }

  /** Filtering never reorders: the result is a subsequence of the input. */
  lemma {:induction false} FilterIsSubsequence<T>(s: seq<T>, p: T -> bool)
    ensures IsSubsequence(Filter(s, p), s)
    decreases |s|
  {
    if |s| > 0 {
      FilterIsSubsequence(s[1..], p);
      var r := Filter(s, p);
      if p(s[0]) {
        assert r[0] == s[0] && r[1..] == Filter(s[1..], p);
      } else {
        assert r == Filter(s[1..], p);
        if |r| > 0 {
          SubsequenceOfTail(r, s);
        }
      }
    }
  }

  lemma {:induction false} FilterAppend<T>(a: seq<T>, b: seq<T>, p: T -> bool)
    ensures Filter(a + b, p) == Filter(a, p) + Filter(b, p)
    decreases |a|
  {
    if |a| > 0 {
      assert (a + b)[1..] == a[1..] + b;
      FilterAppend(a[1..], b, p);
    } else {
      assert a + b == b;
    }
  }

  /** `s` without its first `x` (`indexOf` followed by `splice(index, 1)`); `s` itself when there is none. */
  function RemoveFirst<T(==)>(s: seq<T>, x: T): (r: seq<T>)
    decreases |s|
  {
    if |s| == 0 then []
    else if s[0] == x then s[1..]
    else [s[0]] + RemoveFirst(s[1..], x)
  }

  /** Removing the first `x` removes exactly one occurrence of it, when there is one, and nothing else. */
  lemma {:induction false} CountRemoveFirst<T>(s: seq<T>, x: T, y: T)
    ensures Count(RemoveFirst(s, x), y)
         == if y == x && Count(s, x) > 0 then Count(s, y) - 1 else Count(s, y)
    decreases |s|
  {
    if |s| > 0 && s[0] != x {
      CountRemoveFirst(s[1..], x, y);
    }
  }

  lemma {:induction false} RemoveFirstAbsent<T>(s: seq<T>, x: T)
    requires x !in s
    ensures RemoveFirst(s, x) == s
    decreases |s|
  {
    if |s| > 0 {
      assert forall y :: y in s[1..] ==> y in s;
      RemoveFirstAbsent(s[1..], x);
      assert s == [s[0]] + s[1..];
    }
  }

  /** Filtering with a predicate every element satisfies changes nothing. */
  lemma {:induction false} FilterAll<T>(s: seq<T>, p: T -> bool)
    requires forall i :: 0 <= i < |s| ==> p(s[i])
    ensures Filter(s, p) == s
    decreases |s|
  {
    if |s| > 0 {
      FilterAll(s[1..], p);
      assert s == [s[0]] + s[1..];
    }
  }
}
