/** Sizes of finite sets, and sequences that repeat nothing. */
module Counting {

  ghost predicate Distinct(s: seq<int>) {
    forall i, j :: 0 <= i < j < |s| ==> s[i] != s[j]
  }

  lemma {:induction false} SubsetSize<T>(a: set<T>, b: set<T>)
    requires a <= b
    ensures |a| <= |b|
    decreases a
  {
    if a != {} {
      var x :| x in a;
      SubsetSize(a - {x}, b - {x});
    }
  }

  /** The numbers below n. */
  function Below(n: nat): (r: set<nat>)
    ensures |r| == n && forall b: nat :: b in r <==> b < n
  {
    if n == 0 then {} else Below(n - 1) + {n - 1}
  }

  /** A set of numbers below n has at most n of them, and n only if it has them all. */
  lemma FullBelow(a: set<nat>, n: nat)
    requires forall b :: b in a ==> b < n
    ensures |a| <= n
    ensures |a| == n <==> forall b: nat :: b < n ==> b in a
  {
    SubsetSize(a, Below(n));
    if b: nat :| b < n && b !in a {
      SubsetSize(a, Below(n) - {b});
    } else {
      assert a == Below(n);
    }
  }

  lemma UnionSize<T>(a: set<T>, b: set<T>, c: set<T>)
    ensures |a + b + c| <= |a| + |b| + |c|
  {
  }
}
