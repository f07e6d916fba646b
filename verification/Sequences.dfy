/**
 A sequence with an element more or one less, as the lists of timers and of children change.
 */
module Sequences {

  ghost predicate AllDistinct<T>(s: seq<T>) {
    forall i, j :: 0 <= i < j < |s| ==> s[i] != s[j]
  }

  /** x before the element at p. */
  function Inserted<T>(s: seq<T>, x: T, p: nat): (r: seq<T>)
    requires p <= |s|
    ensures |r| == |s| + 1
  {
    s[..p] + [x] + s[p..]
  }

  function Removed<T>(s: seq<T>, p: nat): (r: seq<T>)
    requires p < |s|
    ensures |r| == |s| - 1
  {
    s[..p] + s[p + 1..]
  }

  lemma InsertedAt<T>(s: seq<T>, x: T, p: nat, i: int)
    requires p <= |s|
    ensures 0 <= i <= |s| ==> Inserted(s, x, p)[i] == if i < p then s[i] else if i == p then x else s[i - 1]
  {
  }

  lemma RemovedAt<T>(s: seq<T>, p: nat, i: int)
    requires p < |s|
    ensures 0 <= i < |s| - 1 ==> Removed(s, p)[i] == s[if i < p then i else i + 1]
  {
  }

  lemma InsertedDistinct<T>(s: seq<T>, x: T, p: nat)
    requires p <= |s| && AllDistinct(s) && x !in s
    ensures AllDistinct(Inserted(s, x, p))
    ensures forall y :: y in Inserted(s, x, p) <==> y in s || y == x
  {
    assert s == s[..p] + s[p..];
  }

  lemma RemovedDistinct<T>(s: seq<T>, p: nat)
    requires p < |s| && AllDistinct(s)
    ensures AllDistinct(Removed(s, p))
    ensures forall y :: y in Removed(s, p) <==> y in s && y != s[p]
  {
    assert s == s[..p] + [s[p]] + s[p + 1..];
  }
}
