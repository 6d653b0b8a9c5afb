/** Sums of numbers over all the frames of all the stacks, and the lexicographic descent of lists of
    numbers. */
module Tallies {
  import opened Protocol

  /** The sum of `w` over a stack. */
  function StackTally(w: Frame -> nat, stack: seq<Frame>): nat {
    if stack == [] then 0 else StackTally(w, stack[..|stack| - 1]) + w(stack[|stack| - 1])
  }

  /** The sum of `w` over all stacks. */
  function Tally(w: Frame -> nat, threads: seq<seq<Frame>>): nat {
    if threads == [] then 0 else Tally(w, threads[..|threads| - 1]) + StackTally(w, threads[|threads| - 1])
  }

  lemma {:induction false} StackTallyAppend(w: Frame -> nat, a: seq<Frame>, b: seq<Frame>)
    ensures StackTally(w, a + b) == StackTally(w, a) + StackTally(w, b)
  {
    if b == [] {
      assert a + b == a;
    } else {
      StackTallyAppend(w, a, b[..|b| - 1]);
      assert (a + b)[..|a + b| - 1] == a + b[..|b| - 1];
    }
  }

  lemma {:induction false} TallyUpdate(w: Frame -> nat, threads: seq<seq<Frame>>, t: nat, stack: seq<Frame>)
    requires t < |threads|
    ensures Tally(w, threads[t := stack]) + StackTally(w, threads[t]) == Tally(w, threads) + StackTally(w, stack)
  {
    var n := |threads| - 1;
    if t == n {
      assert threads[t := stack][..n] == threads[..n];
    } else {
      assert threads[t := stack][..n] == threads[..n][t := stack];
      TallyUpdate(w, threads[..n], t, stack);
    }
  }

  lemma {:induction false} StackTallyAtMost(w: Frame -> nat, w': Frame -> nat, stack: seq<Frame>)
    requires forall k :: 0 <= k < |stack| ==> w'(stack[k]) <= w(stack[k])
    ensures StackTally(w', stack) <= StackTally(w, stack)
  {
    if stack != [] { StackTallyAtMost(w, w', stack[..|stack| - 1]); }
  }

  lemma {:induction false} TallyAtMost(w: Frame -> nat, w': Frame -> nat, threads: seq<seq<Frame>>)
    requires forall t, k :: 0 <= t < |threads| && 0 <= k < |threads[t]| ==> w'(threads[t][k]) <= w(threads[t][k])
    ensures Tally(w', threads) <= Tally(w, threads)
  {
    if threads != [] {
      var last := |threads| - 1;
      forall k | 0 <= k < |threads[last]| ensures w'(threads[last][k]) <= w(threads[last][k]) {}
      StackTallyAtMost(w, w', threads[last]);
      TallyAtMost(w, w', threads[..last]);
    }
  }

  // ---- Lexicographic descent ------------------------------------------------------------------------------

  /** At the first position where the lists differ, the first is smaller. */
  ghost predicate Smaller(a: seq<nat>, b: seq<nat>) {
    exists p :: 0 <= p < |a| && p < |b| && a[p] < b[p] && forall q :: 0 <= q < p ==> a[q] == b[q]
  }

  /** A list that falls at a position, and rises at none before it, is smaller. */
  lemma {:induction false} FallsAt(a: seq<nat>, b: seq<nat>, p: nat)
    requires p < |a| && p < |b| && a[p] < b[p] && forall q :: 0 <= q < p ==> a[q] <= b[q]
    ensures Smaller(a, b)
    decreases p
  {
    if q :| 0 <= q < p && a[q] != b[q] { FallsAt(a, b, q); }
  }

  /** While `done` has not been reached, the lists get smaller. */
  ghost predicate Descends(m: nat -> seq<nat>, done: nat -> bool, from: nat) {
    forall i :: i >= from && !done(i) ==> Smaller(m(i + 1), m(i)) && (|m(i)| > 0 && m(i + 1)[0] == m(i)[0] ==> |m(i + 1)| == |m(i)|)
  }

  ghost predicate Settled(m: nat -> seq<nat>, from: nat, k: nat) {
    forall i :: i >= from ==> |m(i)| >= k && |m(from)| >= k && m(i)[..k] == m(from)[..k]
  }

  lemma {:induction false} NeverRises(m: nat -> seq<nat>, done: nat -> bool, from: nat, k: nat, j: nat)
    requires Descends(m, done, from) && Settled(m, from, k) && k < |m(from)| && j >= from
    requires forall i :: i >= from ==> |m(i)| == |m(from)| && !done(i)
    ensures m(j)[k] <= m(from)[k]
    decreases j
  {
    if j > from {
      NeverRises(m, done, from, k, j - 1);
      assert Smaller(m(j - 1 + 1), m(j - 1));
      assert forall q :: 0 <= q < k ==> m(j)[q] == m(j)[..k][q] && m(j - 1)[q] == m(j - 1)[..k][q];
    }
  }

  /** Lists of numbers cannot get smaller for ever, once their length is settled. */
  lemma {:induction false} DescentEnds(m: nat -> seq<nat>, done: nat -> bool, from: nat, k: nat)
    requires Descends(m, done, from) && Settled(m, from, k) && k <= |m(from)|
    requires forall i :: i >= from ==> |m(i)| == |m(from)|
    ensures exists i :: i >= from && done(i)
    decreases |m(from)| - k, if k < |m(from)| then m(from)[k] else 0
  {
    if forall i :: i >= from ==> !done(i) {
      assert Smaller(m(from + 1), m(from));
      if k < |m(from)| {
        if forall i :: i >= from ==> m(i)[k] == m(from)[k] {
          DescentEnds(m, done, from, k + 1);
        } else {
          var j :| j >= from && m(j)[k] != m(from)[k];
          NeverRises(m, done, from, k, j);
          DescentEnds(m, done, j, k);
        }
      }
    }
  }

  lemma {:induction false} FirstNeverRises(m: nat -> seq<nat>, done: nat -> bool, from: nat, j: nat)
    requires Descends(m, done, from) && j >= from && forall i :: i >= from ==> |m(i)| > 0 && !done(i)
    ensures m(j)[0] <= m(from)[0]
    ensures (forall i :: from <= i <= j ==> m(i)[0] == m(from)[0]) ==> |m(j)| == |m(from)|
    decreases j
  {
    if j > from {
      FirstNeverRises(m, done, from, j - 1);
      assert Smaller(m(j - 1 + 1), m(j - 1));
    }
  }

  /** Lists whose length only changes when their first number falls cannot get smaller for ever. */
  lemma {:induction false} EveryDescentEnds(m: nat -> seq<nat>, done: nat -> bool, from: nat)
    requires Descends(m, done, from) && forall i :: i >= from ==> |m(i)| > 0
    ensures exists i :: i >= from && done(i)
    decreases m(from)[0]
  {
    if forall i :: i >= from ==> !done(i) {
      if forall i :: i >= from ==> m(i)[0] == m(from)[0] {
        forall i | i >= from ensures |m(i)| == |m(from)| { FirstNeverRises(m, done, from, i); }
        DescentEnds(m, done, from, 0);
      } else {
        var j :| j >= from && m(j)[0] != m(from)[0];
        FirstNeverRises(m, done, from, j);
        EveryDescentEnds(m, done, j);
      }
    }
  }
}
