/**
 Members of an object by name (cjson.c, cJSON_strcasecmp and cJSON_GetObjectItem): the first whose name is the same but
 for the case of its letters.
 */
module ObjectItems {
  import opened CText
  import opened Json
  import opened Numerals
  import opened Wrappers

  /** tolower in the C locale */
  function Lower(c: char): char {
    if 'A' <= c <= 'Z' then (c as int + 32) as char else c
  }

  predicate SameName(a: string, b: string) {
    |a| == |b| && forall i :: 0 <= i < |a| ==> Lower(a[i]) == Lower(b[i])
  }

  /** Letters are the same in both cases, and nothing else is. */
  lemma SameLetter(c: char, d: char)
    ensures Lower(c) == Lower(d) <==>
            c == d || ('A' <= c <= 'Z' && d as int == c as int + 32) || ('A' <= d <= 'Z' && c as int == d as int + 32)
  {
  }

  function Find(members: seq<Member>, name: string): Option<Json> {
    if members == [] then None
    else if SameName(members[0].name, name) then Some(members[0].value)
    else Find(members[1..], name)
  }

  /** Values other than objects have no named items. */
  function Lookup(j: Json, name: string): Option<Json> {
    if j.Object? then Find(j.members, name) else None
  }

  /** valueint: a number loses its fraction, and the parser gives true the value 1. */
  function ValueInt(j: Json): int {
    match j
    case Number(v) => Truncated(v)
    case True => 1
    case _ => 0
  }

  lemma ValueOfInt(n: int)
    ensures ValueInt(Int(n)) == n
  {
    assert (-(n as real)).Floor == -n;
  }

  /** A member added at the end is found unless an earlier one has its name. */
  lemma {:induction false} FindAppended(members: seq<Member>, last: Member, name: string)
    ensures Find(members + [last], name) ==
            if Find(members, name).Some? then Find(members, name)
            else if SameName(last.name, name) then Some(last.value)
            else None
  {
    if members != [] {
      assert (members + [last])[1..] == members[1..] + [last];
      FindAppended(members[1..], last, name);
    }
  }

  /** cJSON_strcasecmp on strings that are not NULL */
  method StrCaseCmp(s1: string, s2: string) returns (r: int)
    requires IsCString(s1) && IsCString(s2)
    ensures r == 0 <==> SameName(s1, s2)
    // the difference of the first characters that differ, or of the terminators
    ensures exists i: nat :: i <= |s1| && i <= |s2| && (forall k :: 0 <= k < i ==> Lower(s1[k]) == Lower(s2[k])) &&
              r == Lower(At(s1, i)) as int - Lower(At(s2, i)) as int
  {
    forall i | 0 <= i < |s1| ensures Lower(s1[i]) != 0 as char {
      assert s1[i] in s1;
    }
    forall i | 0 <= i < |s2| ensures Lower(s2[i]) != 0 as char {
      assert s2[i] in s2;
    }
    var i: nat := 0;
    while Lower(At(s1, i)) == Lower(At(s2, i))
      invariant i <= |s1| && i <= |s2|
      invariant forall k :: 0 <= k < i ==> Lower(s1[k]) == Lower(s2[k])
      decreases |s1| - i
    {
      if At(s1, i) == 0 as char {
        return 0;
      }
      i := i + 1;
    }
    r := Lower(At(s1, i)) as int - Lower(At(s2, i)) as int;
  }

  method GetObjectItem(obj: Json, name: string) returns (item: Option<Json>)
    requires IsCString(name)
    requires obj.Object? ==> forall m <- obj.members :: IsCString(m.name)
    ensures item == Lookup(obj, name)
  {
    if !obj.Object? {
      return None;
    }
    var c: nat := 0;
    while c < |obj.members|
      invariant c <= |obj.members|
      invariant Find(obj.members, name) == Find(obj.members[c..], name)
    {
      assert obj.members[c] in obj.members;
      assert obj.members[c..][1..] == obj.members[c + 1..];
      var differ := StrCaseCmp(obj.members[c].name, name);
      if differ == 0 {
        return Some(obj.members[c].value);
      }
      c := c + 1;
    }
    item := None;
  }
}
