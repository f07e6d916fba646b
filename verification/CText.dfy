/**
 C character data.  A C string is a sequence of characters whose codes fit in one byte; reading at or past its end
 gives NUL, as reading its terminator does.
 */
module CText {

  /** Bytes other than NUL: what a C string can hold. */
  predicate IsCString(s: string) {
    forall c <- s :: 0 as char < c < 256 as char
  }

  /** The character a pointer at offset i of the string s sees. */
  function At(s: string, i: nat): char {
    if i < |s| then s[i] else 0 as char
  }

  /** t stands in s at offset i. */
  predicate Occurs(s: string, i: nat, t: string)
    decreases |t|
  {
    t == [] || (i < |s| && s[i] == t[0] && Occurs(s, i + 1, t[1..]))
  }

  /** How far the terminator of s is from offset i; the measure of every scan. */
  function Left(s: string, i: nat): nat {
    if i < |s| then |s| - i else 0
  }

  lemma {:induction false} OccursIff(s: string, i: nat, t: string)
    ensures Occurs(s, i, t) <==> t == [] || (i + |t| <= |s| && s[i..i + |t|] == t)
    decreases |t|
  {
    if t != [] {
      OccursIff(s, i + 1, t[1..]);
      if i + |t| <= |s| {
        assert s[i..i + |t|] == [s[i]] + s[i + 1..i + |t|];
      }
    }
  }

  lemma {:induction false} OccursAt(s: string, i: nat, t: string, k: nat)
    requires Occurs(s, i, t) && k < |t|
    ensures At(s, i + k) == t[k]
    decreases k
  {
    if k > 0 {
      OccursAt(s, i + 1, t[1..], k - 1);
    }
  }

  lemma {:induction false} OccursSplit(s: string, i: nat, a: string, b: string)
    ensures Occurs(s, i, a + b) <==> Occurs(s, i, a) && Occurs(s, i + |a|, b)
    decreases |a|
  {
    if a == [] {
      assert a + b == b;
    } else {
      assert (a + b)[1..] == a[1..] + b;
      OccursSplit(s, i + 1, a[1..], b);
    }
  }

  lemma OccursHead(s: string, i: nat, t: string)
    requires t != [] && Occurs(s, i, t)
    ensures At(s, i) == t[0] && Occurs(s, i + 1, t[1..])
  {
  }

  predicate IsDigit(c: char) {
    '0' <= c <= '9'
  }
}
