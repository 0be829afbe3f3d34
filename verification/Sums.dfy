/** Sums of a measure over a sequence of threads. */
module Sums {

  function Sum<T>(s: seq<T>, f: T -> int): int {
    if s == [] then 0 else f(s[0]) + Sum(s[1..], f)
  }

  lemma {:induction false} SumUpdate<T>(s: seq<T>, f: T -> int, i: nat, x: T)
    requires i < |s|
    ensures Sum(s[i := x], f) == Sum(s, f) - f(s[i]) + f(x)
  {
    if i == 0 {
      assert s[i := x][1..] == s[1..];
    } else {
      assert s[i := x][1..] == s[1..][i - 1 := x];
      SumUpdate(s[1..], f, i - 1, x);
    }
  }

  lemma {:induction false} SumAppend<T>(s: seq<T>, f: T -> int, x: T)
    ensures Sum(s + [x], f) == Sum(s, f) + f(x)
  {
    if s == [] {
      assert s + [x] == [x];
    } else {
      assert (s + [x])[1..] == s[1..] + [x];
      SumAppend(s[1..], f, x);
    }
  }

  lemma {:induction false} SumBounds<T>(s: seq<T>, f: T -> int, lo: int, hi: int)
    requires forall x :: x in s ==> lo <= f(x) <= hi
    ensures |s| * lo <= Sum(s, f) <= |s| * hi
  {
    if s != [] {
      SumBounds(s[1..], f, lo, hi);
      assert |s| * lo == lo + |s[1..]| * lo && |s| * hi == hi + |s[1..]| * hi;
    }
  }

  /** When every element grows by at most d, the sum does by d for each. */
  lemma {:induction false} SumGrowth(s: seq<int>, r: seq<int>, f: int -> int, d: int)
    requires |r| == |s| && forall i :: 0 <= i < |s| ==> f(r[i]) <= f(s[i]) + d
    ensures Sum(r, f) <= Sum(s, f) + d * |s|
  {
    if s != [] {
      SumGrowth(s[1..], r[1..], f, d);
      assert d * |s| == d + d * |s[1..]|;
    }
  }

  /** One element that stays `gap` below the bound keeps the sum `gap` below. */
  lemma SumGap<T>(s: seq<T>, f: T -> int, lo: int, hi: int, i: nat, gap: int)
    requires i < |s|
    requires forall x :: x in s ==> lo <= f(x) <= hi
    requires f(s[i]) <= hi - gap
    ensures Sum(s, f) <= |s| * hi - gap
  {
    Rest(s, f, hi, i);
  }

  lemma {:induction false} Rest<T>(s: seq<T>, f: T -> int, hi: int, i: nat)
    requires i < |s|
    requires forall x :: x in s ==> f(x) <= hi
    ensures Sum(s, f) <= |s| * hi - hi + f(s[i])
  {
    assert |s| * hi == hi + |s[1..]| * hi;
    if i > 0 {
      Rest(s[1..], f, hi, i - 1);
    } else {
      UpperBound(s[1..], f, hi);
    }
  }

  /** No element exceeds a sum of non-negative numbers. */
  lemma {:induction false} SumAtLeast<T>(s: seq<T>, f: T -> int, i: nat)
    requires i < |s|
    requires forall x :: x in s ==> 0 <= f(x)
    ensures f(s[i]) <= Sum(s, f)
  {
    if i == 0 {
      LowerBound(s[1..], f, 0);
    } else {
      SumAtLeast(s[1..], f, i - 1);
    }
  }

  lemma {:induction false} LowerBound<T>(s: seq<T>, f: T -> int, lo: int)
    requires forall x :: x in s ==> lo <= f(x)
    ensures |s| * lo <= Sum(s, f)
  {
    if s != [] {
      LowerBound(s[1..], f, lo);
      assert |s| * lo == lo + |s[1..]| * lo;
    }
  }

  lemma {:induction false} UpperBound<T>(s: seq<T>, f: T -> int, hi: int)
    requires forall x :: x in s ==> f(x) <= hi
    ensures Sum(s, f) <= |s| * hi
  {
    if s != [] {
      UpperBound(s[1..], f, hi);
      assert |s| * hi == hi + |s[1..]| * hi;
    }
  }
}
