/**
 Printing into a growing buffer (cjson.c, printbuffer, ensure, update and the branches for p != 0).  Whatever the
 initial size, the buffer ends up holding the very text that printing without a buffer composes.
 */
module JsonBuffer {
  import opened CText
  import opened Json
  import opened Numerals
  import opened JsonText
  import opened CBuffer
  import opened JsonStringPrinter
  import opened PowerOfTwo

  // The slack a number asks for beyond its text.
  const SLACK := 64

  class PrintBuffer {
    var buffer: array<char>
    var length: int
    var offset: int

    ghost predicate Valid()
      reads this, buffer
    {
      buffer.Length == length && 0 <= offset <= length && 0 < length <= LARGEST
    }

    /** The text up to the offset is done. */
    ghost predicate Reached(done: string)
      reads this, buffer
    {
      Valid() && offset == |done| && buffer[..offset] == done && IsCString(done)
    }

    /** The text, with its terminator, is in the buffer, and the offset is somewhere in or before what was added. */
    ghost predicate Printed(done: string, text: string)
      reads this, buffer
    {
      Valid() && Holds(buffer, done + text) && |done| <= offset <= |done| + |text| && IsCString(done + text)
    }

    constructor (prebuffer: int)
      requires 0 < prebuffer <= LARGEST
      ensures Reached("") && fresh(buffer) && length == prebuffer
    {
      buffer := new char[prebuffer];
      length := prebuffer;
      offset := 0;
    }

    /** Makes room for needed characters from the offset on; returns where they go. */
    method Ensure(needed: int) returns (at: nat)
      requires Valid() && 0 < needed && offset + needed <= LARGEST
      modifies this
      ensures Valid() && offset == old(offset) == at && at + needed <= length
      ensures old(length) <= length && buffer[..old(length)] == old(buffer[..])
      ensures if old(offset + needed <= length) then buffer == old(buffer)
              else fresh(buffer) && length == Pow2gt(offset + needed)
    {
      var total := needed + offset;
      at := offset;
      if total <= length {
        return;
      }
      LeastPower(total);
      var newsize := Pow2gt(total);
      var newbuffer := new char[newsize];
      forall k | 0 <= k < length {
        newbuffer[k] := buffer[k];
      }
      length, buffer := newsize, newbuffer;
    }

    /** Finds the end of what has been printed behind the offset. */
    method Update(ghost text: string) returns (end: int)
      requires Valid() && Holds(buffer, text) && offset <= |text| && IsCString(text)
      ensures end == |text|
    {
      var n := Strlen(buffer, offset, text);
      end := offset + n;
    }

    /** ensure, followed by the assignments that write text there. */
    method Put(needed: int, text: string, ghost done: string)
      requires Reached(done) && |text| <= needed && 0 < needed && offset + needed <= LARGEST
      modifies this, buffer
      ensures Valid() && offset == old(offset) && offset + needed <= length
      ensures fresh(buffer) || buffer == old(buffer)
      ensures buffer[..offset + |text|] == done + text
    {
      var at := Ensure(needed);
      assert buffer[..at] == done by {
        assert buffer[..at] == buffer[..old(length)][..at];
      }
      var _ := Append(buffer, at, text, done);
    }

    /** Put, and step over it. */
    method Advance(needed: int, text: string, ghost done: string)
      requires Reached(done) && IsCString(text) && |text| <= needed && 0 < needed && offset + needed <= LARGEST
      modifies this, buffer
      ensures Reached(done + text)
      ensures fresh(buffer) || buffer == old(buffer)
    {
      Put(needed, text, done);
      if |text| < needed {
        buffer[offset + |text|] := 0 as char;
      }
      offset := offset + |text|;
    }

    /** Put, with the terminator, leaving the offset to update. */
    method Finish(needed: int, text: string, ghost done: string)
      requires Reached(done) && IsCString(text) && |text| < needed && offset + needed <= LARGEST
      modifies this, buffer
      ensures Printed(done, text) && offset == |done|
      ensures fresh(buffer) || buffer == old(buffer)
    {
      Put(needed, text, done);
      buffer[offset + |text|] := 0 as char;
    }

    method PrintStringPtr(str: string, ghost done: string)
      requires Reached(done) && IsCString(str) && offset + |Quoted(str)| + 1 <= LARGEST
      modifies this, buffer
      ensures Printed(done, Quoted(str)) && offset == |done|
      ensures fresh(buffer) || buffer == old(buffer)
    {
      QuotedIsCString(str);
      var flag, len := StringRoom(str);
      var at := Ensure(len + 3);
      assert buffer[..at] == done by {
        assert buffer[..at] == buffer[..old(length)][..at];
      }
      WriteString(buffer, at, str, flag);
    }

    method PrintNumber(v: real, ghost done: string)
      requires Reached(done) && IsFinite(v) && offset + SLACK <= LARGEST
      modifies this, buffer
      ensures Printed(done, NumeralText(NumeralFor(v))) && offset == |done|
      ensures fresh(buffer) || buffer == old(buffer)
    {
      hide NumeralFor, NumeralText;
      TextLength(v);
      TextIsCString(Number(v), 0, false);
      if v == 0.0 {
        Finish(2, "0", done);
      } else {
        var text := FormatNumber(v);
        Finish(64, text, done);
      }
    }

    /** Leaves the text of j behind done.  The offset may stop anywhere inside it; update finds the end. */
    method PrintValue(j: Json, depth: nat, fmt: bool, ghost done: string) returns (out: nat)
      requires Reached(done) && Printable(j) && offset + |Text(j, depth, fmt)| + SLACK <= LARGEST
      modifies this, buffer
      ensures Printed(done, Text(j, depth, fmt))
      ensures fresh(buffer) || buffer == old(buffer)
      ensures out == ReturnedOffset(j, depth, fmt, |done|)
      decreases j, 2
    {
      out := offset;
      match j
      case Null => Finish(5, "null", done);
      case False => Finish(6, "false", done);
      case True => Finish(5, "true", done);
      case Number(v) => PrintNumber(v, done);
      case String(str) => PrintStringPtr(str, done);
      case Array(items) => out := PrintArray(items, depth, fmt, done);
      case Object(members) => out := PrintObject(members, depth, fmt, done);
    }

    method PrintArray(items: seq<Json>, depth: nat, fmt: bool, ghost done: string) returns (out: nat)
      requires Reached(done) && Printable(Array(items)) && offset + |Text(Array(items), depth, fmt)| + SLACK <= LARGEST
      modifies this, buffer
      ensures Printed(done, Text(Array(items), depth, fmt))
      ensures fresh(buffer) || buffer == old(buffer)
      ensures out == |done|
      decreases items, 1
    {
      hide ItemsText, IsCString;
      out := offset;
      if items == [] {
        EmptyArray(depth, fmt);
        Finish(3, "[]", done);
        return;
      }
      TextIsCString(Array(items), depth, fmt);
      ghost var body := ItemsText(items, 0, depth + 1, fmt);
      StringParts("[", body, "]");
      Advance(1, "[", done);
      PrintItems(items, depth + 1, fmt, done + "[");
      Finish(2, "]", done + "[" + body);
      Concat4(done, "[", body, "]");
    }

    method PrintItems(items: seq<Json>, depth: nat, fmt: bool, ghost start: string)
      requires Reached(start) && forall item <- items :: Printable(item)
      requires IsCString(ItemsText(items, 0, depth, fmt))
      requires offset + |ItemsText(items, 0, depth, fmt)| + SLACK <= LARGEST
      modifies this, buffer
      ensures Reached(start + ItemsText(items, 0, depth, fmt))
      ensures fresh(buffer) || buffer == old(buffer)
      decreases items, 0, 1
    {
      hide Text, ItemSeparator, IsCString;
      ghost var done, whole := start, start + ItemsText(items, 0, depth, fmt);
      for i := 0 to |items|
        invariant Reached(done) && done + ItemsText(items, i, depth, fmt) == whole
        invariant IsCString(ItemsText(items, i, depth, fmt))
        invariant fresh(buffer) || buffer == old(buffer)
      {
        ghost var text, separator := Text(items[i], depth, fmt), ItemSeparator(items, i, fmt);
        assert ItemsText(items, i, depth, fmt) == text + separator + ItemsText(items, i + 1, depth, fmt) + "";
        StringParts(text + separator, ItemsText(items, i + 1, depth, fmt), "");
        Concat3(done, text + separator, ItemsText(items, i + 1, depth, fmt));
        PrintItem(items, i, depth, fmt, done);
        done := done + (text + separator);
      }
    }

    /** One turn of the loop over the items. */
    method PrintItem(items: seq<Json>, i: nat, depth: nat, fmt: bool, ghost done: string)
      requires i < |items| && Reached(done) && forall item <- items :: Printable(item)
      requires IsCString(Text(items[i], depth, fmt) + ItemSeparator(items, i, fmt))
      requires offset + |Text(items[i], depth, fmt) + ItemSeparator(items, i, fmt)| + SLACK <= LARGEST
      modifies this, buffer
      ensures Reached(done + (Text(items[i], depth, fmt) + ItemSeparator(items, i, fmt)))
      ensures fresh(buffer) || buffer == old(buffer)
      decreases items, 0, 0
    {
      hide Text, IsCString;
      assert items[i] in items;
      ghost var text := Text(items[i], depth, fmt);
      var _ := PrintValue(items[i], depth, fmt, done);
      offset := Update(done + text);
      if i < |items| - 1 {
        PrintSeparator(items, i, fmt, done + text);
      } else {
        assert done + text + "" == done + text;
      }
      Concat3(done, text, ItemSeparator(items, i, fmt));
    }

    method PrintSeparator(items: seq<Json>, i: nat, fmt: bool, ghost done: string)
      requires i < |items| - 1 && Reached(done) && offset + 3 <= LARGEST
      modifies this, buffer
      ensures Reached(done + ItemSeparator(items, i, fmt))
      ensures fresh(buffer) || buffer == old(buffer)
    {
      if fmt {
        Advance(3, ", ", done);
      } else {
        Advance(2, ",", done);
      }
    }

    method PrintObject(members: seq<Member>, depth: nat, fmt: bool, ghost done: string) returns (out: nat)
      requires Reached(done) && Printable(Object(members))
      requires offset + |Text(Object(members), depth, fmt)| + SLACK <= LARGEST
      modifies this, buffer
      ensures Printed(done, Text(Object(members), depth, fmt))
      ensures fresh(buffer) || buffer == old(buffer)
      ensures out == ReturnedOffset(Object(members), depth, fmt, |done|)
      decreases members, 1
    {
      hide MembersText, IsCString, Tabs;
      TextIsCString(Object(members), depth, fmt);
      ghost var body := MembersText(members, 0, depth + 1, fmt);
      StringParts(Open(fmt), body, Close(depth, fmt));
      var i := offset;
      if members == [] {
        EmptyObject(depth, fmt);
        Finish(if fmt then depth + 4 else 3, Open(fmt) + Close(depth, fmt), done);
      } else {
        Advance(if fmt then 3 else 2, Open(fmt), done);
        PrintMembers(members, depth + 1, fmt, done + Open(fmt));
        Finish(if fmt then depth + 2 else 2, Close(depth, fmt), done + Open(fmt) + body);
        if fmt {
          i := depth;  // i counted the tabs
        }
        Concat4(done, Open(fmt), body, Close(depth, fmt));
      }
      out := i;
    }

    method PrintMembers(members: seq<Member>, depth: nat, fmt: bool, ghost start: string)
      requires 0 < depth && Reached(start) && forall m <- members :: IsCString(m.name) && Printable(m.value)
      requires IsCString(MembersText(members, 0, depth, fmt))
      requires offset + |MembersText(members, 0, depth, fmt)| + SLACK <= LARGEST
      modifies this, buffer
      ensures Reached(start + MembersText(members, 0, depth, fmt))
      ensures fresh(buffer) || buffer == old(buffer)
      decreases members, 0
    {
      hide Text, MemberHead, MemberTail, IsCString, MembersText, Printable;
      ghost var done, whole := start, start + MembersText(members, 0, depth, fmt);
      for i := 0 to |members|
        invariant Reached(done) && done + MembersText(members, i, depth, fmt) == whole
        invariant IsCString(MembersText(members, i, depth, fmt))
        invariant fresh(buffer) || buffer == old(buffer)
      {
        ghost var head, text := MemberHead(members[i].name, depth, fmt), Text(members[i].value, depth, fmt);
        ghost var tail, rest := MemberTail(members, i, fmt), MembersText(members, i + 1, depth, fmt);
        MembersStep(members, i, depth, fmt, done);
        assert members[i] in members;
        PrintHead(members[i].name, depth, fmt, done);
        var _ := PrintValue(members[i].value, depth, fmt, done + head);
        offset := Update(done + head + text);
        PrintTail(members, i, fmt, done + head + text);
        done := done + head + text + tail;
      }
      MembersEnd(members, depth, fmt, done);
    }

    method PrintHead(name: string, depth: nat, fmt: bool, ghost done: string)
      requires 0 < depth && Reached(done) && IsCString(name) && IsCString(MemberHead(name, depth, fmt))
      requires offset + |MemberHead(name, depth, fmt)| + 2 <= LARGEST
      modifies this, buffer
      ensures Reached(done + MemberHead(name, depth, fmt))
      ensures fresh(buffer) || buffer == old(buffer)
    {
      hide IsCString, Tabs, Quoted;
      ghost var indent, colon := if fmt then Tabs(depth) else "", if fmt then ":\t" else ":";
      StringParts(indent, Quoted(name), colon);
      if fmt {
        Advance(depth, Tabs(depth), done);
      }
      assert fmt || done + indent == done;
      PrintStringPtr(name, done + indent);
      offset := Update(done + indent + Quoted(name));
      Advance(if fmt then 2 else 1, if fmt then ":\t" else ":", done + indent + Quoted(name));
      Concat4(done, indent, Quoted(name), colon);
    }

    method PrintTail(members: seq<Member>, i: nat, fmt: bool, ghost done: string)
      requires i < |members| && Reached(done) && offset + 3 <= LARGEST
      modifies this, buffer
      ensures Reached(done + MemberTail(members, i, fmt))
      ensures fresh(buffer) || buffer == old(buffer)
    {
      var tail := MemberTail(members, i, fmt);
      assert tail == if i < |members| - 1 then (if fmt then ",\n" else ",") else if fmt then "\n" else "";
      Advance(|tail| + 1, tail, done);
    }
  }

  /** Where the pointer returned by print_value points.  For objects that are not empty, in formatted mode, the loop
      over the indentation has overwritten the offset saved at the start; the pointer is that of the text if and only if
      the depth happens to be the offset. */
  function ReturnedOffset(j: Json, depth: nat, fmt: bool, offset: nat): (r: nat)
    ensures r == offset <==> (j.Object? ==> j.members == [] || !fmt || depth == offset)
  {
    if j.Object? && j.members != [] && fmt then depth else offset
  }

  lemma EmptyArray(depth: nat, fmt: bool)
    ensures Text(Array([]), depth, fmt) == "[]"
  {
  }

  lemma EmptyObject(depth: nat, fmt: bool)
    ensures Text(Object([]), depth, fmt) == Open(fmt) + Close(depth, fmt)
  {
  }

  /** cJSON_PrintBuffered. */
  method PrintBuffered(j: Json, prebuffer: int, fmt: bool) returns (buffer: array<char>, out: nat)
    requires Printable(j) && 0 < prebuffer <= LARGEST && |Text(j, 0, fmt)| + SLACK <= LARGEST
    ensures fresh(buffer) && Holds(buffer, Text(j, 0, fmt)) && out == 0
  {
    var p := new PrintBuffer(prebuffer);
    out := p.PrintValue(j, 0, fmt, "");
    buffer := p.buffer;
    assert "" + Text(j, 0, fmt) == Text(j, 0, fmt);
  }

  /** One member: its parts, what follows it, and the place of both in the whole text. */
  lemma MembersStep(members: seq<Member>, i: nat, depth: nat, fmt: bool, done: string)
    requires i < |members| && IsCString(MembersText(members, i, depth, fmt))
    ensures var head, text := MemberHead(members[i].name, depth, fmt), Text(members[i].value, depth, fmt);
            var tail, rest := MemberTail(members, i, fmt), MembersText(members, i + 1, depth, fmt);
            && IsCString(head) && IsCString(text) && IsCString(tail) && IsCString(rest)
            && |MembersText(members, i, depth, fmt)| == |head| + |text| + |tail| + |rest|
            && done + MembersText(members, i, depth, fmt) == done + head + text + tail + rest
  {
    hide Text, MemberHead, MemberTail, IsCString;
    var head, text := MemberHead(members[i].name, depth, fmt), Text(members[i].value, depth, fmt);
    var tail, rest := MemberTail(members, i, fmt), MembersText(members, i + 1, depth, fmt);
    StringParts(head + text, tail, rest);
    StringParts(head, text, "");
    assert head + text + "" == head + text;
  }

  lemma MembersEnd(members: seq<Member>, depth: nat, fmt: bool, done: string)
    ensures MembersText(members, |members|, depth, fmt) == "" && done + "" == done
  {
  }

  lemma StringParts(a: string, b: string, c: string)
    requires IsCString(a + b + c)
    ensures IsCString(a) && IsCString(b) && IsCString(c)
  {
    forall x | x in a || x in b || x in c ensures 0 as char < x < 256 as char {
      assert x in a + b + c;
    }
  }
}
