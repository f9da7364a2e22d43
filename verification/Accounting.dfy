/** Book-keeping for lock-freedom: what all threads may still do before shared memory changes, against
    how often it changed. */
module Accounting {

  function Sum(s: seq<nat>): nat {
    if s == [] then 0 else Sum(s[..|s| - 1]) + s[|s| - 1]
  }

  lemma {:induction false} SumBounded(s: seq<nat>, limit: nat)
    requires forall i :: 0 <= i < |s| ==> s[i] <= limit
    ensures Sum(s) <= limit * |s|
    decreases |s|
  {
    if s != [] {
      SumBounded(s[..|s| - 1], limit);
      assert limit * |s| == limit * (|s| - 1) + limit;
    }
  }

  lemma {:induction false} EachBelowSum(s: seq<nat>)
    ensures forall i :: 0 <= i < |s| ==> s[i] <= Sum(s)
    decreases |s|
  {
    if s != [] {
      EachBelowSum(s[..|s| - 1]);
      assert forall i :: 0 <= i < |s| - 1 ==> s[i] == s[..|s| - 1][i];
    }
  }

  /** If only entry t may have grown, and by at most e, the sum grew by at most e. */
  lemma {:induction false} SumChanges(s: seq<nat>, s1: seq<nat>, t: nat, e: int)
    requires |s| == |s1| && t < |s| && s1[t] <= s[t] + e
    requires forall i :: 0 <= i < |s| && i != t ==> s1[i] <= s[i]
    ensures Sum(s1) <= Sum(s) + e
    decreases |s|
  {
    var n := |s| - 1;
    if t < n { SumChanges(s[..n], s1[..n], t, e); } else { SumLess(s1[..n], s[..n]); }
  }

  lemma {:induction false} SumLess(s: seq<nat>, s1: seq<nat>)
    requires |s| == |s1| && forall i :: 0 <= i < |s| ==> s[i] <= s1[i]
    ensures Sum(s) <= Sum(s1)
    decreases |s|
  {
    if s != [] { SumLess(s[..|s| - 1], s1[..|s| - 1]); }
  }

  lemma {:induction false} SumUpdate(s: seq<nat>, i: nat, v: nat)
    requires i < |s|
    ensures Sum(s[i := v]) == Sum(s) - s[i] + v
    decreases |s|
  {
    var n := |s| - 1;
    if i < n {
      assert s[i := v][..n] == s[..n][i := v];
      SumUpdate(s[..n], i, v);
    } else {
      assert s[i := v][..n] == s[..n];
    }
  }

  lemma {:induction false} AllOnes(s: seq<nat>)
    requires forall i :: 0 <= i < |s| ==> s[i] == 1
    ensures Sum(s) == |s|
    decreases |s|
  {
    if s != [] { AllOnes(s[..|s| - 1]); }
  }

  /** What n threads may do while shared memory changed `changes` times and `calls` calls were made. */
  function Allowance(limit: nat, n: nat, changes: nat, calls: nat): nat { limit * (n * changes + calls) }

  lemma AllowanceGrows(limit: nat, n: nat, changes: nat, calls: nat)
    ensures Allowance(limit, n, changes + 1, calls) == Allowance(limit, n, changes, calls) + limit * n
    ensures Allowance(limit, n, changes, calls + 1) == Allowance(limit, n, changes, calls) + limit
  {
    assert n * (changes + 1) == n * changes + n;
  }

  lemma AllowanceMonotone(limit: nat, n: nat, changes: nat, more: nat, calls: nat)
    requires changes <= more
    ensures Allowance(limit, n, changes, calls) <= Allowance(limit, n, more, calls)
  {
    assert n * more == n * changes + n * (more - changes);
    assert limit * (n * more + calls) == limit * (n * changes + calls) + limit * (n * (more - changes));
  }
}
