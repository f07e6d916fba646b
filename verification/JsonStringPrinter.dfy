/**
 print_string_ptr (cjson.c): both scans of the string, and both ways to write it.  The two printers differ only in
 where the space comes from.
 */
module JsonStringPrinter {
  import opened CText
  import opened Json
  import opened Numerals
  import opened JsonText
  import opened CBuffer

  /** The first scan: is there anything to escape? */
  method ScanFlag(str: string) returns (flag: bool)
    ensures flag <==> exists c <- str :: NeedsEscape(c)
  {
    flag := false;
    var ptr := 0;
    while ptr < |str|
      invariant ptr <= |str|
      invariant flag <==> exists k :: 0 <= k < ptr && NeedsEscape(str[k])
    {
      flag := flag || str[ptr] < 32 as char || str[ptr] == '\"' || str[ptr] == '\\';
      ptr := ptr + 1;
    }
    assert flag ==> exists c <- str :: NeedsEscape(c) by {
      if flag {
        var k :| 0 <= k < |str| && NeedsEscape(str[k]);
        assert str[k] in str;
      }
    }
  }

  /** The second scan: the length of the escaped text. */
  method EscapedLength(str: string) returns (len: nat)
    ensures len == |Escaped(str, 0)|
  {
    len := 0;
    var ptr := 0;
    while ptr < |str|
      invariant ptr <= |str| && len + |Escaped(str, ptr)| == |Escaped(str, 0)|
    {
      var token := str[ptr];
      len := len + 1;
      if token in "\"\\\n\r\t" || token == 8 as char || token == 12 as char {
        len := len + 1;
      } else if token < 32 as char {
        len := len + 5;
      }
      ptr := ptr + 1;
    }
  }

  /** Writes an unescaped string and its quotes: strcpy between two assignments. */
  method WritePlain(out: array<char>, at: nat, str: string)
    requires forall c <- str :: !NeedsEscape(c)
    requires at + |str| + 3 <= out.Length
    modifies out
    ensures at + |Quoted(str)| < out.Length
    ensures out[..at + |Quoted(str)|] == old(out[..at]) + Quoted(str)
    ensures out[at + |Quoted(str)|] == 0 as char
  {
    PlainIsEscaped(str, 0);
    assert Quoted(str) == "\"" + str + "\"";
    ghost var before := out[..at];
    var p := Append(out, at, "\"", before);
    p := Append(out, p, str, before + "\"");
    p := Append(out, p, "\"", before + "\"" + str);
    out[p] := 0 as char;
    Concat4(before, "\"", str, "\"");
  }

  /** Writes the escaped string character by character. */
  method WriteEscaped(out: array<char>, at: nat, str: string)
    requires at + |Escaped(str, 0)| + 3 <= out.Length
    modifies out
    ensures at + |Quoted(str)| < out.Length
    ensures out[..at + |Quoted(str)|] == old(out[..at]) + Quoted(str)
    ensures out[at + |Quoted(str)|] == 0 as char
  {
    hide Escape;
    ghost var before := out[..at];
    var ptr2 := Append(out, at, "\"", before);
    ghost var whole := before + "\"" + Escaped(str, 0);
    var ptr := 0;
    while ptr < |str|
      invariant ptr <= |str|
      invariant 0 <= ptr2 <= out.Length && out[..ptr2] + Escaped(str, ptr) == whole
    {
      ghost var done := out[..ptr2];
      assert |whole| == ptr2 + |Escaped(str, ptr)|;
      ptr2 := WriteCharacter(out, ptr2, str[ptr]);
      assert done + (Escape(str[ptr]) + Escaped(str, ptr + 1)) == out[..ptr2] + Escaped(str, ptr + 1);
      ptr := ptr + 1;
    }
    assert out[..ptr2] == whole;
    ptr2 := Append(out, ptr2, "\"", whole);
    out[ptr2] := 0 as char;
    Concat4(before, "\"", Escaped(str, 0), "\"");
  }

  /** One turn of the writing loop. */
  method WriteCharacter(out: array<char>, at: nat, token: char) returns (ptr2: nat)
    requires at + |Escape(token)| + 2 <= out.Length
    modifies out
    ensures ptr2 == at + |Escape(token)| && out[..ptr2] == old(out[..at]) + Escape(token)
  {
    ghost var before := out[..at];
    if token > 31 as char && token != '\"' && token != '\\' {
      ptr2 := Append(out, at, [token], before);
    } else if token == '\\' {
      ptr2 := Append(out, at, "\\\\", before);
    } else if token == '\"' {
      ptr2 := Append(out, at, "\\\"", before);
    } else if token == 8 as char {
      ptr2 := Append(out, at, "\\b", before);
    } else if token == 12 as char {
      ptr2 := Append(out, at, "\\f", before);
    } else if token == '\n' {
      ptr2 := Append(out, at, "\\n", before);
    } else if token == '\r' {
      ptr2 := Append(out, at, "\\r", before);
    } else if token == '\t' {
      ptr2 := Append(out, at, "\\t", before);
    } else {
      // sprintf "u%04x", with the terminator it writes
      ptr2 := Append(out, at, "\\u00" + [HexChar(token as nat / 16), HexChar(token as nat % 16)], before);
      out[ptr2] := 0 as char;
    }
  }

  /** What print_string_ptr writes once it has room for the quoted string and its terminator. */
  method WriteString(out: array<char>, at: nat, str: string, flag: bool)
    requires flag || forall c <- str :: !NeedsEscape(c)
    requires at + |Escaped(str, 0)| + 3 <= out.Length
    modifies out
    ensures at + |Quoted(str)| < out.Length
    ensures out[..at + |Quoted(str)|] == old(out[..at]) + Quoted(str)
    ensures out[at + |Quoted(str)|] == 0 as char
  {
    if flag {
      WriteEscaped(out, at, str);
    } else {
      PlainIsEscaped(str, 0);
      WritePlain(out, at, str);
    }
  }

  /** The space asked for: from the length of the string, or from the second scan. */
  method StringRoom(str: string) returns (flag: bool, len: nat)
    ensures len == |Escaped(str, 0)|
    ensures flag || forall c <- str :: !NeedsEscape(c)
  {
    flag := ScanFlag(str);
    if flag {
      len := EscapedLength(str);
    } else {
      PlainIsEscaped(str, 0);
      len := |str|;
    }
  }
}
