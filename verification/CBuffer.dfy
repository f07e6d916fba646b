/**
 Character buffers: the writes of strcpy, memcpy and sprintf, and strlen.
 */
module CBuffer {
  import opened CText

  /** The buffer holds t as a C string from its start. */
  ghost predicate Holds(a: array<char>, t: string)
    reads a
  {
    |t| < a.Length && a[..|t|] == t && a[|t|] == 0 as char
  }

  /** Writes t behind the text already in the buffer. */
  method Append(a: array<char>, at: nat, t: string, ghost done: string) returns (end: nat)
    requires at + |t| <= a.Length && a[..at] == done
    modifies a
    ensures end == at + |t|
    ensures a[..end] == done + t
    ensures forall k :: end <= k < a.Length ==> a[k] == old(a[k])
  {
    forall k | 0 <= k < |t| {
      a[at + k] := t[k];
    }
    end := at + |t|;
  }

  lemma Concat3(a: string, b: string, c: string)
    ensures a + b + c == a + (b + c)
  {
  }

  lemma Concat4(a: string, b: string, c: string, d: string)
    ensures a + b + c + d == a + (b + c + d)
  {
  }

  /** strlen from an offset. */
  method Strlen(a: array<char>, from: nat, ghost t: string) returns (n: nat)
    requires from <= |t| && Holds(a, t) && IsCString(t)
    ensures from + n == |t|
  {
    forall k | 0 <= k < |t| ensures a[k] != 0 as char {
      assert a[..|t|][k] == t[k] && t[k] in t;
    }
    n := 0;
    while a[from + n] != 0 as char
      invariant from + n <= |t|
      decreases |t| - n
    {
      n := n + 1;
    }
  }

  /** The string a pointer to the buffer denotes. */
  method CString(a: array<char>, ghost t: string) returns (s: string)
    requires Holds(a, t) && IsCString(t)
    ensures s == t
  {
    var n := Strlen(a, 0, t);
    s := a[..n];
  }
}
