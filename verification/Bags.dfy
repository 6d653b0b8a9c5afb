/** Sums of multisets over a sequence, used to add up what threads and words hold, and bounds of sets. */
module Bags {

  /** The sum of `f(i, s[i])` over the positions of `s`. */
  function Sum<F, T(==)>(f: (nat, F) -> multiset<T>, s: seq<F>): multiset<T> {
    if s == [] then multiset{} else Sum(f, s[..|s| - 1]) + f(|s| - 1, s[|s| - 1])
  }

  lemma SumPush<F, T>(f: (nat, F) -> multiset<T>, s: seq<F>, a: F)
    ensures Sum(f, s + [a]) == Sum(f, s) + f(|s|, a)
  {
    assert (s + [a])[..|s|] == s;
  }

  lemma {:induction false} SumUpdate<F, T>(f: (nat, F) -> multiset<T>, s: seq<F>, i: nat, a: F)
    requires i < |s|
    ensures forall x :: Sum(f, s[i := a])[x] + f(i, s[i])[x] == Sum(f, s)[x] + f(i, a)[x]
  {
    if i == |s| - 1 {
      assert s[i := a][..|s| - 1] == s[..|s| - 1];
    } else {
      assert s[i := a][..|s| - 1] == s[..|s| - 1][i := a];
      SumUpdate(f, s[..|s| - 1], i, a);
    }
  }

  /** Whatever is in a sum is in one of its parts. */
  lemma {:induction false} SumSource<F, T>(f: (nat, F) -> multiset<T>, s: seq<F>, x: T) returns (i: nat)
    requires x in Sum(f, s)
    ensures i < |s| && x in f(i, s[i])
  {
    if x in f(|s| - 1, s[|s| - 1]) {
      i := |s| - 1;
    } else {
      i := SumSource(f, s[..|s| - 1], x);
    }
  }

  lemma {:induction false} SumMember<F, T>(f: (nat, F) -> multiset<T>, s: seq<F>, i: nat)
    requires i < |s|
    ensures f(i, s[i]) <= Sum(f, s)
  {
    if i < |s| - 1 {
      SumMember(f, s[..|s| - 1], i);
    }
  }

  /** Sequences whose terms are equal have equal sums. */
  lemma {:induction false} SumEqual<F, T>(f: (nat, F) -> multiset<T>, s: seq<F>, s': seq<F>)
    requires |s| == |s'| && forall i :: 0 <= i < |s| ==> f(i, s[i]) == f(i, s'[i])
    ensures Sum(f, s) == Sum(f, s')
  {
    if s != [] {
      SumEqual(f, s[..|s| - 1], s'[..|s| - 1]);
    }
  }

  lemma {:induction false} SumEmpty<F, T>(f: (nat, F) -> multiset<T>, s: seq<F>)
    requires forall i :: 0 <= i < |s| ==> f(i, s[i]) == multiset{}
    ensures Sum(f, s) == multiset{}
  {
    if s != [] {
      SumEmpty(f, s[..|s| - 1]);
    }
  }

  /** A number above all of a set. */
  lemma {:induction false} AboveAll(keys: set<nat>) returns (bound: nat)
    ensures forall k :: k in keys ==> k < bound
    decreases |keys|
  {
    bound := 0;
    if k :| k in keys {
      var rest := AboveAll(keys - {k});
      bound := if rest > k then rest else k + 1;
      assert forall j :: j in keys ==> j == k || j in keys - {k};
    }
  }
}
