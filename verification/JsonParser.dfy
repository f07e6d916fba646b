/**
 The parsing routines of cjson.c as they run: pointers advance through the text, and parse_string decodes into a
 buffer sized by its first scan.  Each method is proved to return what JsonParse says.
 */
module JsonParser {
  import opened CText
  import opened Json
  import opened Numerals
  import opened JsonParse

  /** The digit loops of parse_number: n is the number so far. */
  method ReadDigits(s: string, start: nat, init: nat) returns (n: nat, num: nat)
    ensures (n, num) == ScanDigits(s, start, init)
  {
    n, num := init, start;
    while IsDigit(At(s, num))
      invariant ScanDigits(s, num, n) == ScanDigits(s, start, init)
      decreases Left(s, num)
    {
      n, num := n * 10 + DigitValue(s[num]), num + 1;
    }
  }

  method ParseExponent(s: string, i: nat) returns (exponent: int, num: nat)
    ensures (exponent, num) == ParsedExponent(s, i)
  {
    exponent, num := 0, i;
    if At(s, num) == 'e' || At(s, num) == 'E' {
      num := num + 1;
      var negative := false;
      if At(s, num) == '+' {
        num := num + 1;
      } else if At(s, num) == '-' {
        negative, num := true, num + 1;
      }
      exponent, num := ReadDigits(s, num, 0);
      exponent := if negative then -exponent else exponent;
    }
  }

  method ParseNumber(s: string, i: nat) returns (r: Parse)
    ensures r == ParsedNumber(s, i)
  {
    hide ScanDigits, Scaled, ParsedExponent;
    var num: nat, n: nat, scale: int, negative := i, 0, 0, false;
    if At(s, num) == '-' {
      negative, num := true, num + 1;
    }
    if At(s, num) == '0' {
      num := num + 1;
    }
    if '1' <= At(s, num) <= '9' {
      n, num := ReadDigits(s, num, 0);
    }
    if At(s, num) == '.' && IsDigit(At(s, num + 1)) {
      var point := num;
      n, num := ReadDigits(s, point + 1, n);
      scale := point + 1 - num;
    }
    var exponent;
    exponent, num := ParseExponent(s, num);
    r := Done(Number(Scaled(Signed(negative, n), scale + exponent)), num);
  }

  method SkipSpace(s: string, i: nat) returns (e: nat)
    ensures e == Skip(s, i)
  {
    e := i;
    while 0 as char < At(s, e) <= 32 as char
      invariant Skip(s, e) == Skip(s, i)
      decreases Left(s, e)
    {
      e := e + 1;
    }
  }

  // ---- strings ----

  /** An accepted \u escape ends where the first scan saw the end of a character, and fits the space counted for it. */
  lemma EscapeStaysInside(s: string, p: nat)
    requires At(s, p) == '\\' && At(s, p + 1) == 'u'
    ensures var end := StringEnd(s, p);
            var e := UnicodeEscape(s, p + 1, end);
            e.CodePoint? ==>
              && StringEnd(s, e.last + 1) == end
              && Utf8Length(e.uc) + StringRoom(s, e.last + 1) <= StringRoom(s, p)
  {
    hide Hex4;
    var e := UnicodeEscape(s, p + 1, StringEnd(s, p));
    if e.CodePoint? {
      HexStaysInside(s, p + 2, 4);
      if IsHighSurrogate(Hex4(s, p + 2)) {
        assert StringEnd(s, p + 6) == StringEnd(s, p + 8);
        HexStaysInside(s, p + 8, 4);
      }
    }
  }

  /** The body decoded between the quotes ends at the closing quote and never outgrows the buffer. */
  lemma {:induction false} DecodedFits(s: string, p: nat)
    ensures var d := Decode(s, p, StringEnd(s, p));
            d.Body? ==> d.stop == StringEnd(s, p) && |d.str| <= StringRoom(s, p)
    decreases Left(s, p)
  {
    hide UnicodeEscape;
    var end := StringEnd(s, p);
    if p < end {
      if At(s, p) != '\\' {
        DecodedFits(s, p + 1);
      } else if At(s, p + 1) != 'u' {
        DecodedFits(s, p + 2);
      } else {
        EscapeStaysInside(s, p);
        var e := UnicodeEscape(s, p + 1, end);
        if e.CodePoint? {
          DecodedFits(s, e.last + 1);
        }
      }
    }
  }

  /** Writes the bytes of a code point back to front, as the switch over their number falls through its cases. */
  method EmitUtf8(out: array<char>, at: nat, code: nat)
    requires 0 < code < 0x11_0000 && at + Utf8Length(code) <= out.Length
    modifies out
    ensures out[at..at + Utf8Length(code)] == Utf8(code)
    ensures forall k :: 0 <= k < out.Length && !(at <= k < at + Utf8Length(code)) ==> out[k] == old(out[k])
  {
    var uc, len := code, Utf8Length(code);
    var p := at + len;
    if len >= 4 {
      p := p - 1;
      out[p], uc := Continuation(uc), uc / 0x40;
    }
    if len >= 3 {
      p := p - 1;
      out[p], uc := Continuation(uc), uc / 0x40;
    }
    if len >= 2 {
      p := p - 1;
      out[p], uc := Continuation(uc), uc / 0x40;
    }
    p := p - 1;
    assert len == 3 ==> uc == code / 0x1000;
    assert len == 4 ==> uc == code / 0x4_0000;
    out[p] := (uc + FirstByteMark(len)) as char;
  }

  function FirstByteMark(len: nat): nat {
    if len == 2 then 0xC0 else if len == 3 then 0xE0 else if len == 4 then 0xF0 else 0
  }

  /** The first scan of parse_string: the end of the body, and the room to decode it. */
  method ScanString(s: string, i: nat) returns (end: nat, len: nat)
    ensures end == StringEnd(s, i) && len == StringRoom(s, i)
  {
    end, len := i, 0;
    while At(s, end) != '\"' && At(s, end) != 0 as char
      invariant StringEnd(s, end) == StringEnd(s, i)
      invariant len + StringRoom(s, end) == StringRoom(s, i)
      decreases Left(s, end)
    {
      len := len + 1;
      if At(s, end) == '\\' {
        end := end + 1;
      }
      end := end + 1;
    }
  }

  /** A character that is not a backslash, or a backslash with a letter other than u. */
  lemma SimpleStep(s: string, p: nat)
    requires p < StringEnd(s, p) && !(At(s, p) == '\\' && At(s, p + 1) == 'u')
    ensures var end := StringEnd(s, p);
            var c := if At(s, p) == '\\' then SimpleEscape(At(s, p + 1)) else At(s, p);
            var next := if At(s, p) == '\\' then p + 2 else p + 1;
            && StringEnd(s, next) == end && StringRoom(s, p) == 1 + StringRoom(s, next)
            && Decode(s, p, end) == Prepend([c], Decode(s, next, end))
  {
  }

  lemma UnicodeStep(s: string, p: nat)
    requires p < StringEnd(s, p) && At(s, p) == '\\' && At(s, p + 1) == 'u'
    ensures var end := StringEnd(s, p);
            match UnicodeEscape(s, p + 1, end)
            case BadEscape => Decode(s, p, end) == Malformed
            case CodePoint(uc, last) =>
              && StringEnd(s, last + 1) == end && Utf8Length(uc) + StringRoom(s, last + 1) <= StringRoom(s, p)
              && Decode(s, p, end) == Prepend(Utf8(uc), Decode(s, last + 1, end))
  {
    hide UnicodeEscape;
    EscapeStaysInside(s, p);
  }

  lemma PrependTwice(a: string, b: string, d: Decoded)
    ensures Prepend(a, Prepend(b, d)) == Prepend(a + b, d)
  {
    if d.Body? {
      assert a + (b + d.str) == (a + b) + d.str;
    }
  }

  method ParseString(s: string, i: nat) returns (r: Parse)
    ensures r == ParsedString(s, i)
  {
    hide Decode, StringEnd, StringRoom, Utf8, UnicodeEscape, SimpleEscape;
    if At(s, i) != '\"' {
      return Fail(i);
    }
    var end, len := ScanString(s, i + 1);
    var out := new char[len + 1];
    var p, p2 := i + 1, 0;
    assert Decode(s, p, end) == Prepend(out[..p2], Decode(s, p, end));
    while p < end
      invariant 0 <= p2 && p2 + StringRoom(s, p) <= len
      invariant StringEnd(s, p) == end
      invariant Decode(s, i + 1, end) == Prepend(out[..p2], Decode(s, p, end))
      decreases if p < end then end - p else 0
    {
      ghost var before, done := p, out[..p2];
      if At(s, p) == '\\' && At(s, p + 1) == 'u' {
        UnicodeStep(s, p);
        match UnicodeEscape(s, p + 1, end)
        case BadEscape =>
          return Fail(i);
        case CodePoint(uc, last) =>
          EmitUtf8(out, p2, uc);
          p, p2 := last + 1, p2 + Utf8Length(uc);
          assert out[..p2] == done + Utf8(uc);
          PrependTwice(done, Utf8(uc), Decode(s, p, end));
      } else {
        SimpleStep(s, p);
        if At(s, p) != '\\' {
          out[p2] := At(s, p);
        } else {
          p := p + 1;
          out[p2] := SimpleEscape(At(s, p));
        }
        p, p2 := p + 1, p2 + 1;
        assert out[..p2] == done + [out[p2 - 1]];
        PrependTwice(done, [out[p2 - 1]], Decode(s, p, end));
      }
    }
    DecodeStops(s, p, end);
    out[p2] := 0 as char;
    var str := out[..p2];
    return Done(String(str), if At(s, p) == '\"' then p + 1 else p);
  }

  lemma DecodeStops(s: string, p: nat, end: nat)
    requires end <= p
    ensures Decode(s, p, end) == Body("", p)
  {
  }

  // ---- values ----

  method ParseValue(s: string, i: nat) returns (r: Parse)
    ensures r == ParsedValue(s, i)
    decreases Left(s, i), 1
  {
    if Occurs(s, i, "null") {
      r := Done(Null, i + 4);
    } else if Occurs(s, i, "false") {
      r := Done(False, i + 5);
    } else if Occurs(s, i, "true") {
      r := Done(True, i + 4);
    } else if At(s, i) == '\"' {
      r := ParseString(s, i);
    } else if At(s, i) == '-' || IsDigit(At(s, i)) {
      r := ParseNumber(s, i);
    } else if At(s, i) == '[' {
      r := ParseArray(s, i);
    } else if At(s, i) == '{' {
      r := ParseObject(s, i);
    } else {
      r := Fail(i);
    }
  }

  /** One unfolding of the list of items. */
  lemma ListFirst(s: string, i: nat)
    ensures match ParsedValue(s, Skip(s, i))
            case Fail(ep) => ParsedList(s, i) == ItemsFail(ep)
            case Done(item, end) => ParsedList(s, i) == After([item], ParsedListRest(s, Skip(s, end)))
  {
    hide ParsedValue, ParsedListRest, Skip;
  }

  lemma AfterTwice(a: seq<Json>, b: seq<Json>, rest: ParsedItems)
    ensures After(a, After(b, rest)) == After(a + b, rest)
  {
    if rest.Items? {
      assert a + (b + rest.items) == (a + b) + rest.items;
    }
  }

  method ParseArray(s: string, i: nat) returns (r: Parse)
    requires At(s, i) == '['
    ensures r == ParsedArray(s, i)
    decreases Left(s, i), 0
  {
    hide ParsedValue, ParsedList, Skip;
    var value := SkipSpace(s, i + 1);
    if At(s, value) == ']' {
      return Done(Array([]), value + 1);
    }
    ghost var start := value;
    ListFirst(s, start);
    value := SkipSpace(s, value);
    var child := ParseValue(s, value);
    if child.Fail? {
      return child;
    }
    var items := [child.item];
    value := SkipSpace(s, child.end);
    while At(s, value) == ','
      invariant i < value && ParsedList(s, start) == After(items, ParsedListRest(s, value))
      decreases Left(s, value)
    {
      ListFirst(s, value + 1);
      value := SkipSpace(s, value + 1);
      child := ParseValue(s, value);
      if child.Fail? {
        return child;
      }
      AfterTwice(items, [child.item], ParsedListRest(s, Skip(s, child.end)));
      items := items + [child.item];
      value := SkipSpace(s, child.end);
    }
    assert items + [] == items;
    r := if At(s, value) == ']' then Done(Array(items), value + 1) else Fail(value);
  }

  /** One unfolding of the list of members. */
  lemma MembersFirst(s: string, i: nat)
    ensures match ParsedString(s, Skip(s, i))
            case Fail(ep) => ParsedMemberList(s, i) == MembersFail(ep)
            case Done(name, end) =>
              var colon := Skip(s, end);
              if At(s, colon) != ':' then ParsedMemberList(s, i) == MembersFail(colon)
              else
                match ParsedValue(s, Skip(s, colon + 1))
                case Fail(ep) => ParsedMemberList(s, i) == MembersFail(ep)
                case Done(value, end') =>
                  ParsedMemberList(s, i) == AfterMembers([Member(name.str, value)], ParsedMemberRest(s, Skip(s, end')))
  {
    hide ParsedValue, ParsedString, ParsedMemberRest, Skip;
  }

  lemma AfterMembersTwice(a: seq<Member>, b: seq<Member>, rest: ParsedMembers)
    ensures AfterMembers(a, AfterMembers(b, rest)) == AfterMembers(a + b, rest)
  {
    if rest.Members? {
      assert a + (b + rest.members) == (a + b) + rest.members;
    }
  }

  method ParseObject(s: string, i: nat) returns (r: Parse)
    requires At(s, i) == '{'
    ensures r == ParsedObject(s, i)
    decreases Left(s, i), 0
  {
    hide ParsedValue, ParsedString, ParsedMemberList, Skip;
    var value := SkipSpace(s, i + 1);
    if At(s, value) == '}' {
      return Done(Object([]), value + 1);
    }
    ghost var start := value;
    MembersFirst(s, start);
    value := SkipSpace(s, value);
    var name := ParseString(s, value);
    if name.Fail? {
      return name;
    }
    value := SkipSpace(s, name.end);
    if At(s, value) != ':' {
      return Fail(value);
    }
    value := SkipSpace(s, value + 1);
    var child := ParseValue(s, value);
    if child.Fail? {
      return child;
    }
    var members := [Member(name.item.str, child.item)];
    value := SkipSpace(s, child.end);
    while At(s, value) == ','
      invariant i < value && ParsedMemberList(s, start) == AfterMembers(members, ParsedMemberRest(s, value))
      decreases Left(s, value)
    {
      MembersFirst(s, value + 1);
      value := SkipSpace(s, value + 1);
      name := ParseString(s, value);
      if name.Fail? {
        return name;
      }
      value := SkipSpace(s, name.end);
      if At(s, value) != ':' {
        return Fail(value);
      }
      value := SkipSpace(s, value + 1);
      child := ParseValue(s, value);
      if child.Fail? {
        return child;
      }
      var member := Member(name.item.str, child.item);
      AfterMembersTwice(members, [member], ParsedMemberRest(s, Skip(s, child.end)));
      members := members + [member];
      value := SkipSpace(s, child.end);
    }
    assert members + [] == members;
    r := if At(s, value) == '}' then Done(Object(members), value + 1) else Fail(value);
  }

  method ParseWithOpts(s: string, requireEnd: bool) returns (r: Parse)
    ensures r == ParsedText(s, requireEnd)
  {
    var start := SkipSpace(s, 0);
    r := ParseValue(s, start);
    if r.Done? && requireEnd {
      var end := SkipSpace(s, r.end);
      r := if At(s, end) != 0 as char then Fail(end) else r.(end := end);
    }
  }
}
