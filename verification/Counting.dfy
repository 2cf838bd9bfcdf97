/**
 Distinct numbers below a bound: how many there can be, and when they are all of them.
*/
module Counting {

  ghost predicate Distinct(xs: seq<nat>) {
    forall i, j :: 0 <= i < j < |xs| ==> xs[i] != xs[j]
  }

  ghost predicate AllBelow(xs: seq<nat>, n: nat) {
    forall i :: 0 <= i < |xs| ==> xs[i] < n
  }

  function Below(n: nat): (s: set<nat>)
    ensures forall i: nat :: i in s <==> i < n
    ensures |s| == n
  {
    if n == 0 then {} else Below(n - 1) + {n - 1}
  }

  function Elements(xs: seq<nat>): (s: set<nat>)
    ensures forall x :: x in s <==> x in xs
    ensures |s| <= |xs|
  {
    if xs == [] then {} else Elements(xs[..|xs| - 1]) + {xs[|xs| - 1]}
  }

  lemma {:induction false} ElementCount(xs: seq<nat>)
    requires Distinct(xs)
    ensures |Elements(xs)| == |xs|
  {
    if xs != [] { ElementCount(xs[..|xs| - 1]); }
  }

  lemma {:induction false} SubsetSize(a: set<nat>, b: set<nat>)
    requires a <= b
    ensures |a| <= |b| && (|a| == |b| ==> a == b) && (|a| < |b| ==> b - a != {})
  {
    assert b == a + (b - a);
    assert |b| == |a| + |b - a|;
  }

  /** At most `n` of them, and every number below `n` exactly when there are `n`. */
  lemma {:induction false} Pigeonhole(xs: seq<nat>, n: nat)
    requires Distinct(xs) && AllBelow(xs, n)
    ensures |xs| <= n
    ensures |xs| == n <==> forall i: nat :: i < n ==> i in xs
  {
    ElementCount(xs);
    SubsetSize(Elements(xs), Below(n));
    if |xs| < n {
      var i :| i in Below(n) - Elements(xs);
      assert i !in xs;
    }
  }
}
