/**
 The names in a parsed tree are C strings, whatever the text.  (A value that is a string need not be: the parser accepts
 a text that ends inside a string, and after a last backslash it takes the terminator for the escaped character.)
 */
module JsonNames {
  import opened CText
  import opened Json
  import opened Numerals
  import opened JsonParse

  predicate Named(j: Json)
    decreases j, 0
  {
    match j
    case Array(items) => forall item <- items :: Named(item)
    case Object(members) => forall m <- members :: IsCString(m.name) && Named(m.value)
    case _ => true
  }

  lemma AtInside(s: string, i: nat)
    requires IsCString(s) && i < |s|
    ensures 0 as char < At(s, i) < 256 as char
  {
    assert s[i] in s;
  }

  lemma Utf8IsCString(uc: nat)
    requires 0 < uc < 0x11_0000
    ensures IsCString(Utf8(uc))
  {
  }

  lemma {:induction false} DecodedIsCString(s: string, p: nat, end: nat)
    requires IsCString(s) && end < |s| && Decode(s, p, end).Body?
    ensures IsCString(Decode(s, p, end).str)
    decreases if p < end then end - p else 0
  {
    hide Utf8, UnicodeEscape;
    if p < end {
      AtInside(s, p);
      AtInside(s, p + 1);
      if At(s, p) != '\\' {
        DecodedIsCString(s, p + 1, end);
      } else if At(s, p + 1) != 'u' {
        DecodedIsCString(s, p + 2, end);
      } else {
        var escape := UnicodeEscape(s, p + 1, end);
        Utf8IsCString(escape.uc);
        DecodedIsCString(s, escape.last + 1, end);
      }
    }
  }

  lemma {:induction false} DecodeReachesEnd(s: string, p: nat, end: nat)
    requires Decode(s, p, end).Body?
    ensures end <= Decode(s, p, end).stop
    decreases if p < end then end - p else 0
  {
    hide Utf8, UnicodeEscape;
    if p < end {
      if At(s, p) != '\\' {
        DecodeReachesEnd(s, p + 1, end);
      } else if At(s, p + 1) != 'u' {
        DecodeReachesEnd(s, p + 2, end);
      } else {
        DecodeReachesEnd(s, UnicodeEscape(s, p + 1, end).last + 1, end);
      }
    }
  }

  lemma ParsedStringIsCString(s: string, i: nat)
    requires IsCString(s) && ParsedString(s, i).Done? && ParsedString(s, i).end < |s|
    ensures IsCString(ParsedString(s, i).item.str)
  {
    hide Decode, StringEnd;
    DecodeReachesEnd(s, i + 1, StringEnd(s, i + 1));
    DecodedIsCString(s, i + 1, StringEnd(s, i + 1));
  }

  lemma {:induction false} ParsedValueNamed(s: string, i: nat)
    requires IsCString(s) && ParsedValue(s, i).Done?
    ensures Named(ParsedValue(s, i).item)
    decreases Left(s, i), 1
  {
    hide ParsedString, ParsedNumber, Occurs, ParsedList, ParsedMemberList;
    if Occurs(s, i, "null") || Occurs(s, i, "false") || Occurs(s, i, "true") {
    } else if At(s, i) == '[' {
      var first := Skip(s, i + 1);
      if At(s, first) != ']' {
        ParsedListNamed(s, first);
      }
    } else if At(s, i) == '{' {
      var first := Skip(s, i + 1);
      if At(s, first) != '}' {
        ParsedMembersNamed(s, first);
      }
    } else if At(s, i) == '\"' {
      assert ParsedValue(s, i).item.String?;
    } else {
      NumberIsNumber(s, i);
    }
  }

  lemma NumberIsNumber(s: string, i: nat)
    ensures ParsedNumber(s, i).item.Number?
  {
  }

  lemma {:induction false} ParsedListNamed(s: string, i: nat)
    requires IsCString(s) && ParsedList(s, i).Items?
    ensures forall item <- ParsedList(s, i).items :: Named(item)
    decreases Left(s, i), 2
  {
    hide ParsedValue, Named, IsCString;
    var first := ParsedValue(s, Skip(s, i));
    ParsedValueNamed(s, Skip(s, i));
    var next := Skip(s, first.end);
    if At(s, next) == ',' {
      ParsedListNamed(s, next + 1);
    }
  }

  lemma {:induction false} ParsedMembersNamed(s: string, i: nat)
    requires IsCString(s) && ParsedMemberList(s, i).Members?
    ensures forall m <- ParsedMemberList(s, i).members :: IsCString(m.name) && Named(m.value)
    decreases Left(s, i), 2
  {
    hide ParsedValue, ParsedString, Named, IsCString;
    var name := ParsedString(s, Skip(s, i));
    var colon := Skip(s, name.end);
    ParsedStringIsCString(s, Skip(s, i));
    var value := ParsedValue(s, Skip(s, colon + 1));
    ParsedValueNamed(s, Skip(s, colon + 1));
    var next := Skip(s, value.end);
    if At(s, next) == ',' {
      ParsedMembersNamed(s, next + 1);
    }
  }
}
