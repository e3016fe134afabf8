/**
 Sums over a table of concurrent activities. A protocol state keeps one entry per goroutine or per call
 in flight; a shared counter is then a sum over such a table, and so is the number of copies of a job in
 circulation. The lemmas say how a sum changes when one entry changes.
 */
module Counting {

  function SumFirst<T>(s: seq<T>, n: nat, weight: T -> nat): nat
    requires n <= |s|
  {
    if n == 0 then 0 else SumFirst(s, n - 1, weight) + weight(s[n - 1])
  }

  function Sum<T>(s: seq<T>, weight: T -> nat): nat {
    SumFirst(s, |s|, weight)
  }

  // ----- only the entries counted matter -----

  lemma {:induction false} SumFirstSame<T>(s: seq<T>, t: seq<T>, n: nat, weight: T -> nat)
    requires n <= |s| && n <= |t| && forall i :: 0 <= i < n ==> s[i] == t[i]
    ensures SumFirst(s, n, weight) == SumFirst(t, n, weight)
  {
    if n > 0 {
      SumFirstSame(s, t, n - 1, weight);
    }
  }

  // ----- one entry changes -----

  lemma {:induction false} SumFirstUpdate<T>(s: seq<T>, n: nat, i: nat, x: T, weight: T -> nat)
    requires i < n <= |s|
    ensures SumFirst(s[i := x], n, weight) + weight(s[i]) == SumFirst(s, n, weight) + weight(x)
  {
    if i == n - 1 {
      SumFirstSame(s[i := x], s, n - 1, weight);
    } else {
      SumFirstUpdate(s, n - 1, i, x, weight);
    }
  }

  lemma SumUpdate<T>(s: seq<T>, i: nat, x: T, weight: T -> nat)
    requires i < |s|
    ensures Sum(s[i := x], weight) + weight(s[i]) == Sum(s, weight) + weight(x)
  {
    SumFirstUpdate(s, |s|, i, x, weight);
  }

  lemma SumAppend<T>(s: seq<T>, x: T, weight: T -> nat)
    ensures Sum(s + [x], weight) == Sum(s, weight) + weight(x)
  {
    SumFirstSame(s + [x], s, |s|, weight);
  }

  // ----- from entries to totals and back -----

  lemma {:induction false} SumFirstAtLeast<T>(s: seq<T>, n: nat, i: nat, weight: T -> nat)
    requires i < n <= |s|
    ensures SumFirst(s, n, weight) >= weight(s[i])
  {
    if i < n - 1 {
      SumFirstAtLeast(s, n - 1, i, weight);
    }
  }

  lemma SumAtLeast<T>(s: seq<T>, i: nat, weight: T -> nat)
    requires i < |s|
    ensures Sum(s, weight) >= weight(s[i])
  {
    SumFirstAtLeast(s, |s|, i, weight);
  }

  lemma {:induction false} SumFirstMonotone<T>(s: seq<T>, n: nat, small: T -> nat, large: T -> nat)
    requires n <= |s| && forall i :: 0 <= i < n ==> small(s[i]) <= large(s[i])
    ensures SumFirst(s, n, small) <= SumFirst(s, n, large)
  {
    if n > 0 {
      SumFirstMonotone(s, n - 1, small, large);
    }
  }

  lemma SumMonotone<T>(s: seq<T>, small: T -> nat, large: T -> nat)
    requires forall i :: 0 <= i < |s| ==> small(s[i]) <= large(s[i])
    ensures Sum(s, small) <= Sum(s, large)
  {
    SumFirstMonotone(s, |s|, small, large);
  }

  lemma {:induction false} SumFirstZero<T>(s: seq<T>, n: nat, weight: T -> nat)
    requires n <= |s| && forall i :: 0 <= i < n ==> weight(s[i]) == 0
    ensures SumFirst(s, n, weight) == 0
  {
    if n > 0 {
      SumFirstZero(s, n - 1, weight);
    }
  }

  lemma SumZero<T>(s: seq<T>, weight: T -> nat)
    requires forall i :: 0 <= i < |s| ==> weight(s[i]) == 0
    ensures Sum(s, weight) == 0
  {
    SumFirstZero(s, |s|, weight);
  }

  /** If one entry alone contributes, it is the sum. */
  lemma SumOnly<T>(s: seq<T>, k: nat, zero: T, weight: T -> nat)
    requires k < |s| && weight(zero) == 0 && forall i :: 0 <= i < |s| && i != k ==> weight(s[i]) == 0
    ensures Sum(s, weight) == weight(s[k])
  {
    SumUpdate(s, k, zero, weight);
    SumZero(s[k := zero], weight);
  }

  /** A positive sum has an entry that contributes to it. */
  lemma {:induction false} SumFirstWitness<T>(s: seq<T>, n: nat, weight: T -> nat) returns (i: nat)
    requires n <= |s| && SumFirst(s, n, weight) > 0
    ensures i < n && weight(s[i]) > 0
  {
    if weight(s[n - 1]) > 0 {
      i := n - 1;
    } else {
      i := SumFirstWitness(s, n - 1, weight);
    }
  }

  lemma SumWitness<T>(s: seq<T>, weight: T -> nat) returns (i: nat)
    requires Sum(s, weight) > 0
    ensures i < |s| && weight(s[i]) > 0
  {
    i := SumFirstWitness(s, |s|, weight);
  }
}
