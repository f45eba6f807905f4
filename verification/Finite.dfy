/** Counting facts about finite sets and duplicate-free sequences. */
module Finite {
  lemma {:induction false} SubsetSize<T>(a: set<T>, b: set<T>)
    requires a <= b
    ensures |a| <= |b|
  {
    if a != {} {
      var x :| x in a;
      SubsetSize(a - {x}, b - {x});
    }
  }

  /** The numbers below n. */
  ghost function Below(n: nat): (s: set<nat>)
    ensures |s| == n && forall v: nat :: v in s <==> v < n
  {
    if n == 0 then {} else Below(n - 1) + {n - 1}
  }

  ghost predicate NoDuplicates<T(!new)>(s: seq<T>) {
    forall i, j :: 0 <= i < j < |s| ==> s[i] != s[j]
  }

  ghost function Elements<T(!new)>(s: seq<T>): (e: set<T>)
    ensures forall x :: x in e <==> x in s
  {
    if s == [] then {} else Elements(s[..|s| - 1]) + {s[|s| - 1]}
  }

  lemma {:induction false} ElementCount<T(!new)>(s: seq<T>)
    requires NoDuplicates(s)
    ensures |Elements(s)| == |s|
  {
    if s != [] { ElementCount(s[..|s| - 1]); }
  }

  /** A duplicate-free sequence of numbers below n that is shorter than n misses one. */
  lemma SomeMissing(s: seq<nat>, n: nat) returns (j: nat)
    requires NoDuplicates(s) && |s| < n
    ensures j < n && j !in s
  {
    ElementCount(s);
    if Below(n) <= Elements(s) { SubsetSize(Below(n), Elements(s)); }
    j :| j in Below(n) && j !in Elements(s);
  }

  /** One that is not shorter misses none, and is not longer. */
  lemma NoneMissing(s: seq<nat>, n: nat)
    requires NoDuplicates(s) && |s| >= n && forall i :: 0 <= i < |s| ==> s[i] < n
    ensures |s| == n && forall j: nat :: j < n ==> j in s
  {
    ElementCount(s);
    SubsetSize(Elements(s), Below(n));
    forall j: nat | j < n ensures j in s {
      if j !in s { SubsetSize(Elements(s), Below(n) - {j}); }
    }
  }
}
