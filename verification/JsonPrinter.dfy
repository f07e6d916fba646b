/**
 Printing without a print buffer (cjson.c, the branches for p == 0): every routine computes the space it needs,
 allocates it, and composes its text there.  Array bounds make the verifier check that the space suffices.
 */
module JsonPrinter {
  import opened CText
  import opened Json
  import opened Numerals
  import opened JsonText
  import opened CBuffer
  import opened JsonStringPrinter

  // ---- the space computed beforehand ----

  function StringSpace(str: string): nat {
    |Escaped(str, 0)| + 3
  }

  /** The bytes allocated for the text of j. */
  function Space(j: Json, depth: nat, fmt: bool): nat {
    match j
    case Null => 5
    case False => 6
    case True => 5
    case Number(v) => if v == 0.0 then 2 else 64
    case String(str) => StringSpace(str)
    case Array(items) => if items == [] then 3 else 5 + ItemsSpace(items, 0, depth + 1, fmt)
    case Object(members) =>
      if members == [] then (if fmt then depth + 4 else 3)
      else 7 + (if fmt then depth + 1 else 0) + MembersSpace(members, 0, depth + 1, fmt)
  }

  function ItemsSpace(items: seq<Json>, k: nat, depth: nat, fmt: bool): nat
    requires k <= |items|
    decreases |items| - k
  {
    if k == |items| then 0
    else |Text(items[k], depth, fmt)| + 2 + (if fmt then 1 else 0) + ItemsSpace(items, k + 1, depth, fmt)
  }

  function MembersSpace(members: seq<Member>, k: nat, depth: nat, fmt: bool): nat
    requires k <= |members|
    decreases |members| - k
  {
    if k == |members| then 0
    else
      |Text(members[k].value, depth, fmt)| + |Quoted(members[k].name)| + 2 + (if fmt then 2 + depth else 0) +
      MembersSpace(members, k + 1, depth, fmt)
  }

  lemma {:induction false} ItemsFit(items: seq<Json>, k: nat, depth: nat, fmt: bool)
    requires k <= |items|
    ensures |ItemsText(items, k, depth, fmt)| <= ItemsSpace(items, k, depth, fmt)
    decreases |items| - k
  {
    hide Text;
    if k < |items| {
      ItemsFit(items, k + 1, depth, fmt);
    }
  }

  lemma {:induction false} MembersFit(members: seq<Member>, k: nat, depth: nat, fmt: bool)
    requires k <= |members|
    ensures |MembersText(members, k, depth, fmt)| <= MembersSpace(members, k, depth, fmt)
    decreases |members| - k
  {
    hide Text, Quoted;
    if k < |members| {
      MembersFit(members, k + 1, depth, fmt);
    }
  }

  /** The text and its terminator fit the space; strings fill it exactly. */
  lemma TextFits(j: Json, depth: nat, fmt: bool)
    requires Printable(j)
    ensures |Text(j, depth, fmt)| < Space(j, depth, fmt)
    ensures j.String? ==> |Text(j, depth, fmt)| + 1 == Space(j, depth, fmt)
  {
    hide MembersText, ItemsText, Escaped, NumeralText, NumeralFor;
    match j
    case Number(v) =>
      TextLength(v);
    case Array(items) =>
      ItemsFit(items, 0, depth + 1, fmt);
      EmptyItems(items, depth + 1, fmt);
    case Object(members) =>
      MembersFit(members, 0, depth + 1, fmt);
    case _ =>
  }

  // ---- the printers ----

  /** cJSON_strdup. */
  method Strdup(t: string) returns (out: array<char>)
    ensures fresh(out) && Holds(out, t) && out.Length == |t| + 1
  {
    out := new char[|t| + 1];
    var end := Append(out, 0, t, "");
    out[end] := 0 as char;
  }

  method PrintStringPtr(str: string) returns (out: array<char>)
    ensures fresh(out) && Holds(out, Quoted(str)) && out.Length == StringSpace(str)
  {
    var flag, len := StringRoom(str);
    out := new char[len + 3];
    WriteString(out, 0, str, flag);
  }

  method PrintNumber(v: real) returns (out: array<char>)
    requires IsFinite(v)
    ensures fresh(out) && Holds(out, NumeralText(NumeralFor(v))) && out.Length == Space(Number(v), 0, false)
  {
    hide NumeralFor, NumeralText;
    TextLength(v);
    var end;
    if v == 0.0 {
      out := new char[2];
      end := Append(out, 0, "0", "");
    } else {
      out := new char[64];
      var text := FormatNumber(v);
      end := Append(out, 0, text, "");
    }
    out[end] := 0 as char;
  }

  method PrintValue(j: Json, depth: nat, fmt: bool) returns (out: array<char>)
    requires Printable(j)
    ensures fresh(out) && Holds(out, Text(j, depth, fmt)) && out.Length == Space(j, depth, fmt)
    decreases j, 1
  {
    match j
    case Null => out := Strdup("null");
    case False => out := Strdup("false");
    case True => out := Strdup("true");
    case Number(v) => out := PrintNumber(v);
    case String(str) => out := PrintStringPtr(str);
    case Array(items) => out := PrintArray(items, depth, fmt);
    case Object(members) => out := PrintObject(members, depth, fmt);
  }

  method PrintArray(items: seq<Json>, depth: nat, fmt: bool) returns (out: array<char>)
    requires Printable(Array(items))
    ensures fresh(out) && Holds(out, Text(Array(items), depth, fmt)) && out.Length == Space(Array(items), depth, fmt)
    decreases items, 1
  {
    hide ItemsText, ItemsSpace;
    EmptyItems(items, depth + 1, fmt);
    if items == [] {
      out := new char[3];
      var end := Append(out, 0, "[]", "");
      out[end] := 0 as char;
    } else {
      var entries, len := RetrieveItems(items, depth + 1, fmt);
      out := new char[5 + len];
      ItemsFit(items, 0, depth + 1, fmt);
      ComposeArray(out, items, entries, depth + 1, fmt);
    }
  }

  method RetrieveItems(items: seq<Json>, depth: nat, fmt: bool) returns (entries: seq<string>, len: nat)
    requires forall item <- items :: Printable(item)
    ensures |entries| == |items| && forall k :: 0 <= k < |items| ==> entries[k] == Text(items[k], depth, fmt)
    ensures len == ItemsSpace(items, 0, depth, fmt)
    decreases items, 0
  {
    hide Text;
    entries, len := [], 0;
    for i := 0 to |items|
      invariant |entries| == i && forall k :: 0 <= k < i ==> entries[k] == Text(items[k], depth, fmt)
      invariant len + ItemsSpace(items, i, depth, fmt) == ItemsSpace(items, 0, depth, fmt)
    {
      assert items[i] in items;
      var ret := PrintValue(items[i], depth, fmt);
      TextIsCString(items[i], depth, fmt);
      var entry := CString(ret, Text(items[i], depth, fmt));
      entries := entries + [entry];
      len := len + |entry| + 2 + (if fmt then 1 else 0);
    }
  }

  method ComposeArray(out: array<char>, items: seq<Json>, entries: seq<string>, depth: nat, fmt: bool)
    requires |entries| == |items| && forall k :: 0 <= k < |items| ==> entries[k] == Text(items[k], depth, fmt)
    requires |ItemsText(items, 0, depth, fmt)| + 3 <= out.Length
    modifies out
    ensures Holds(out, "[" + ItemsText(items, 0, depth, fmt) + "]")
  {
    hide Text, ItemSeparator;
    ghost var done := "[";
    var ptr := Append(out, 0, "[", "");
    out[ptr] := 0 as char;
    ghost var whole := "[" + ItemsText(items, 0, depth, fmt);
    for i := 0 to |items|
      invariant 0 <= ptr <= out.Length && out[..ptr] == done
      invariant done + ItemsText(items, i, depth, fmt) == whole
    {
      ghost var next := done + entries[i] + ItemSeparator(items, i, fmt);
      assert next + ItemsText(items, i + 1, depth, fmt) == whole;
      ptr := ComposeItem(out, ptr, items, i, entries[i], fmt, done);
      done := next;
    }
    assert done == whole;
    ptr := Append(out, ptr, "]", done);
    out[ptr] := 0 as char;
  }

  /** One turn of the composing loop. */
  method ComposeItem(out: array<char>, at: nat, items: seq<Json>, i: nat, entry: string, fmt: bool, ghost done: string)
    returns (ptr: nat)
    requires i < |items| && at + |entry| + |ItemSeparator(items, i, fmt)| < out.Length && out[..at] == done
    modifies out
    ensures ptr == at + |entry| + |ItemSeparator(items, i, fmt)|
    ensures out[..ptr] == done + entry + ItemSeparator(items, i, fmt)
  {
    ptr := Append(out, at, entry, done);
    if i != |items| - 1 {
      ptr := Append(out, ptr, ",", done + entry);
      if fmt {
        ptr := Append(out, ptr, " ", done + entry + ",");
        assert done + entry + "," + " " == done + entry + ", ";
      }
      out[ptr] := 0 as char;
    }
  }

  /** Writes count tabs. */
  method WriteTabs(out: array<char>, at: nat, count: nat, ghost done: string) returns (ptr: nat)
    requires at + count <= out.Length && out[..at] == done
    modifies out
    ensures ptr == at + count && out[..ptr] == done + Tabs(count)
    ensures forall k :: ptr <= k < out.Length ==> out[k] == old(out[k])
  {
    ptr := at;
    for i := 0 to count
      invariant ptr == at + i && out[..ptr] == done + Tabs(i)
      invariant forall k :: ptr <= k < out.Length ==> out[k] == old(out[k])
    {
      out[ptr] := '\t';
      ptr := ptr + 1;
    }
  }

  method PrintObject(members: seq<Member>, depth: nat, fmt: bool) returns (out: array<char>)
    requires Printable(Object(members))
    ensures fresh(out) && Holds(out, Text(Object(members), depth, fmt))
    ensures out.Length == Space(Object(members), depth, fmt)
    decreases members, 1
  {
    hide MembersSpace;
    if members == [] {
      out := new char[if fmt then depth + 4 else 3];
      var ptr := WriteOpen(out, fmt);
      ptr := WriteClose(out, ptr, depth, fmt, Open(fmt));
      assert Text(Object(members), depth, fmt) == Open(fmt) + Close(depth, fmt);
    } else {
      var names, entries, len := RetrieveMembers(members, depth + 1, fmt);
      out := new char[7 + (if fmt then depth + 1 else 0) + len];
      MembersFit(members, 0, depth + 1, fmt);
      ComposeObject(out, members, names, entries, depth + 1, fmt);
    }
  }

  /** The opening brace and, formatted, a line break. */
  method WriteOpen(out: array<char>, fmt: bool) returns (ptr: nat)
    requires |Open(fmt)| < out.Length
    modifies out
    ensures ptr == |Open(fmt)| && out[..ptr] == Open(fmt)
  {
    ptr := Append(out, 0, "{", "");
    if fmt {
      ptr := Append(out, ptr, "\n", "{");
    }
    out[ptr] := 0 as char;
  }

  /** Formatted, the indentation; the closing brace and the terminator. */
  method WriteClose(out: array<char>, at: nat, depth: nat, fmt: bool, ghost done: string) returns (ptr: nat)
    requires at + |Close(depth, fmt)| < out.Length && out[..at] == done
    modifies out
    ensures ptr == at + |Close(depth, fmt)| && Holds(out, done + Close(depth, fmt))
  {
    ghost var indent := if fmt then Tabs(depth) else "";
    ptr := at;
    if fmt {
      ptr := WriteTabs(out, ptr, depth, done);
    }
    assert out[..ptr] == done + indent;
    ptr := Append(out, ptr, "}", done + indent);
    out[ptr] := 0 as char;
    Concat3(done, indent, "}");
  }

  method RetrieveMembers(members: seq<Member>, depth: nat, fmt: bool)
    returns (names: seq<string>, entries: seq<string>, len: nat)
    requires forall m <- members :: IsCString(m.name) && Printable(m.value)
    ensures |names| == |entries| == |members|
    ensures forall k :: 0 <= k < |members| ==>
                          names[k] == Quoted(members[k].name) && entries[k] == Text(members[k].value, depth, fmt)
    ensures len == MembersSpace(members, 0, depth, fmt)
    decreases members, 0
  {
    hide Text, Quoted;
    names, entries, len := [], [], 0;
    for i := 0 to |members|
      invariant |names| == |entries| == i
      invariant forall k :: 0 <= k < i ==>
                              names[k] == Quoted(members[k].name) && entries[k] == Text(members[k].value, depth, fmt)
      invariant len + MembersSpace(members, i, depth, fmt) == MembersSpace(members, 0, depth, fmt)
    {
      assert members[i] in members;
      var str := PrintStringPtr(members[i].name);
      QuotedIsCString(members[i].name);
      var name := CString(str, Quoted(members[i].name));
      var ret := PrintValue(members[i].value, depth, fmt);
      TextIsCString(members[i].value, depth, fmt);
      var entry := CString(ret, Text(members[i].value, depth, fmt));
      names, entries := names + [name], entries + [entry];
      len := len + |entry| + |name| + 2 + (if fmt then 2 + depth else 0);
    }
  }

  method ComposeObject(out: array<char>, members: seq<Member>, names: seq<string>, entries: seq<string>,
                       depth: nat, fmt: bool)
    requires 0 < depth && |names| == |entries| == |members|
    requires forall k :: 0 <= k < |members| ==>
                           names[k] == Quoted(members[k].name) && entries[k] == Text(members[k].value, depth, fmt)
    requires |Open(fmt) + MembersText(members, 0, depth, fmt) + Close(depth - 1, fmt)| < out.Length
    modifies out
    ensures Holds(out, Open(fmt) + MembersText(members, 0, depth, fmt) + Close(depth - 1, fmt))
  {
    hide Text, Quoted, MemberHead, MemberTail, Open, Close;
    var ptr := WriteOpen(out, fmt);
    ghost var done := Open(fmt);
    ghost var whole := Open(fmt) + MembersText(members, 0, depth, fmt);
    for i := 0 to |members|
      invariant 0 <= ptr <= out.Length && out[..ptr] == done
      invariant done + MembersText(members, i, depth, fmt) == whole
    {
      ghost var line := MemberHead(members[i].name, depth, fmt) + entries[i] + MemberTail(members, i, fmt);
      assert MembersText(members, i, depth, fmt) == line + MembersText(members, i + 1, depth, fmt);
      Concat3(done, line, MembersText(members, i + 1, depth, fmt));
      ptr := ComposeMember(out, ptr, members, i, names[i], entries[i], depth, fmt, done);
      done := done + line;
    }
    assert done == whole;
    ptr := WriteClose(out, ptr, depth - 1, fmt, done);
  }

  /** One turn of the composing loop. */
  method ComposeMember(out: array<char>, at: nat, members: seq<Member>, i: nat, name: string, entry: string,
                       depth: nat, fmt: bool, ghost done: string) returns (ptr: nat)
    requires i < |members| && name == Quoted(members[i].name)
    requires at + |MemberHead(members[i].name, depth, fmt) + entry + MemberTail(members, i, fmt)| < out.Length
    requires out[..at] == done
    modifies out
    ensures var line := MemberHead(members[i].name, depth, fmt) + entry + MemberTail(members, i, fmt);
            ptr == at + |line| && out[..ptr] == done + line
  {
    hide Quoted;
    ghost var head := MemberHead(members[i].name, depth, fmt);
    ptr := WriteHead(out, at, members[i].name, name, depth, fmt, done);
    ptr := Append(out, ptr, entry, done + head);
    ghost var comma := if i != |members| - 1 then "," else "";
    if i != |members| - 1 {
      ptr := Append(out, ptr, ",", done + head + entry);
    }
    assert out[..ptr] == done + head + entry + comma;
    if fmt {
      ptr := Append(out, ptr, "\n", done + head + entry + comma);
    }
    out[ptr] := 0 as char;
    Concat3(done + head + entry, comma, if fmt then "\n" else "");
    Concat4(done, head, entry, MemberTail(members, i, fmt));
  }

  /** The indentation, the name and the colon of a member. */
  method WriteHead(out: array<char>, at: nat, ghost str: string, name: string, depth: nat, fmt: bool,
                   ghost done: string) returns (ptr: nat)
    requires name == Quoted(str) && at + |MemberHead(str, depth, fmt)| <= out.Length && out[..at] == done
    modifies out
    ensures ptr == at + |MemberHead(str, depth, fmt)| && out[..ptr] == done + MemberHead(str, depth, fmt)
  {
    hide Quoted;
    ghost var indent := if fmt then Tabs(depth) else "";
    ptr := at;
    if fmt {
      ptr := WriteTabs(out, ptr, depth, done);
    }
    assert out[..ptr] == done + indent;
    ptr := Append(out, ptr, name, done + indent);
    ptr := Append(out, ptr, ":", done + indent + name);
    if fmt {
      ptr := Append(out, ptr, "\t", done + indent + name + ":");
      Concat3(done + indent + name, ":", "\t");
    }
    Concat4(done, indent, name, if fmt then ":\t" else ":");
  }

  /** cJSON_Print and cJSON_PrintUnformatted. */
  method Print(j: Json, fmt: bool) returns (out: array<char>)
    requires Printable(j)
    ensures fresh(out) && Holds(out, Text(j, 0, fmt))
  {
    out := PrintValue(j, 0, fmt);
  }
}
