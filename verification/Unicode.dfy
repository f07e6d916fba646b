/**
 The \u escapes of parse_string (cjson.c) against the Unicode encoding forms: UTF-16 as in section 2 of RFC 2781 and
 UTF-8 as in section 3 of RFC 3629.
 */
module Unicode {
  import opened CText
  import opened Json
  import opened Numerals
  import opened JsonParse
  import opened JsonParser

  predicate IsScalar(uc: nat) {
    uc < 0x11_0000 && !(0xD800 <= uc <= 0xDFFF)
  }

  /** Section 2.1 of RFC 2781. */
  function Utf16(uc: nat): seq<nat>
    requires IsScalar(uc)
  {
    if uc < 0x1_0000 then [uc]
    else var u := uc - 0x1_0000; [0xD800 + u / 0x400, 0xDC00 + u % 0x400]
  }

  /** The code units that an escape with its u at p spells, and the offset of the last digit: two units if a second
      escape follows a high surrogate, else one. */
  function Units(s: string, p: nat): (r: (seq<nat>, nat)) {
    if IsHighSurrogate(Hex4(s, p + 1)) && At(s, p + 5) == '\\' && At(s, p + 6) == 'u' then
      ([Hex4(s, p + 1), Hex4(s, p + 7)], p + 10)
    else ([Hex4(s, p + 1)], p + 4)
  }

  /** An escape is accepted exactly if its units are the UTF-16 form of a code point other than 0 and stand inside the
      literal; and then it stands for that code point. */
  lemma EscapeIsUtf16(s: string, p: nat, end: nat, uc: nat, last: nat)
    ensures UnicodeEscape(s, p, end) == CodePoint(uc, last) <==>
            && 0 < uc && IsScalar(uc) && Units(s, p) == (Utf16(uc), last)
            && p + 4 < end && last <= end
  {
    hide Hex4;
    var u1, u2 := Hex4(s, p + 1), Hex4(s, p + 7);
    if IsHighSurrogate(u1) && IsLowSurrogate(u2) {
      var v := 0x1_0000 + (u1 % 0x400) * 0x400 + u2 % 0x400;
      assert IsScalar(v) && Utf16(v) == [u1, u2];
    }
  }

  // ---- UTF-8 ----

  predicate IsContinuation(c: char) {
    0x80 <= c as nat < 0xC0
  }

  /** The code point at the start of t and the number of its bytes; 0 bytes if t starts with no code point in shortest
      form. */
  function FirstCodePoint(t: string): (r: (nat, nat))
    ensures r.1 <= |t| && r.1 <= 4
  {
    if t == "" then (0, 0)
    else
      var b := t[0] as nat;
      if b < 0x80 then (b, 1)
      else if 0xC2 <= b < 0xE0 && |t| >= 2 && IsContinuation(t[1]) then
        ((b - 0xC0) * 0x40 + (t[1] as nat - 0x80), 2)
      else if 0xE0 <= b < 0xF0 && |t| >= 3 && IsContinuation(t[1]) && IsContinuation(t[2]) then
        var uc := (b - 0xE0) * 0x1000 + (t[1] as nat - 0x80) * 0x40 + (t[2] as nat - 0x80);
        if uc >= 0x800 && IsScalar(uc) then (uc, 3) else (0, 0)
      else if 0xF0 <= b < 0xF8 && |t| >= 4 && IsContinuation(t[1]) && IsContinuation(t[2]) && IsContinuation(t[3]) then
        var uc := (b - 0xF0) * 0x4_0000 + (t[1] as nat - 0x80) * 0x1000 + (t[2] as nat - 0x80) * 0x40 +
                  (t[3] as nat - 0x80);
        if uc >= 0x1_0000 && IsScalar(uc) then (uc, 4) else (0, 0)
      else (0, 0)
  }

  /** What is written for a code point is read back as that code point, in shortest form. */
  lemma Utf8RoundTrip(uc: nat, rest: string)
    requires 0 < uc && IsScalar(uc)
    ensures FirstCodePoint(Utf8(uc) + rest) == (uc, Utf8Length(uc))
  {
    hide Utf8, FirstCodePoint;
    if uc < 0x80 {
      RoundTrip1(uc, rest);
    } else if uc < 0x800 {
      RoundTrip2(uc, rest);
    } else if uc < 0x1_0000 {
      RoundTrip3(uc, rest);
    } else {
      RoundTrip4(uc, rest);
    }
  }

  lemma RoundTrip1(uc: nat, rest: string)
    requires 0 < uc < 0x80
    ensures FirstCodePoint(Utf8(uc) + rest) == (uc, 1)
  {
    assert (Utf8(uc) + rest)[0] == uc as char;
  }

  lemma RoundTrip2(uc: nat, rest: string)
    requires 0x80 <= uc < 0x800
    ensures FirstCodePoint(Utf8(uc) + rest) == (uc, 2)
  {
    var t := Utf8(uc) + rest;
    assert t[0] == (0xC0 + uc / 0x40) as char && t[1] == Continuation(uc);
  }

  lemma SixBits(n: nat)
    ensures n == n / 0x40 * 0x40 + n % 0x40 && n / 0x40 / 0x40 == n / 0x1000 && n / 0x1000 / 0x40 == n / 0x4_0000
    ensures n / 0x40 == n / 0x1000 * 0x40 + n / 0x40 % 0x40
  {
  }

  lemma RoundTrip3(uc: nat, rest: string)
    requires 0x800 <= uc < 0x1_0000 && IsScalar(uc)
    ensures FirstCodePoint(Utf8(uc) + rest) == (uc, 3)
  {
    var t := Utf8(uc) + rest;
    var a, b, c := uc / 0x1000, uc / 0x40 % 0x40, uc % 0x40;
    SixBits(uc);
    assert a * 0x1000 + b * 0x40 + c == uc;
    assert t[0] as nat == 0xE0 + a && t[1] as nat == 0x80 + b && t[2] as nat == 0x80 + c;
  }

  lemma RoundTrip4(uc: nat, rest: string)
    requires 0x1_0000 <= uc < 0x11_0000
    ensures FirstCodePoint(Utf8(uc) + rest) == (uc, 4)
  {
    var t := Utf8(uc) + rest;
    var a, b, c, d := uc / 0x4_0000, uc / 0x1000 % 0x40, uc / 0x40 % 0x40, uc % 0x40;
    SixBits(uc);
    SixBits(uc / 0x40);
    assert a * 0x4_0000 + b * 0x1000 + c * 0x40 + d == uc;
    assert t[0] as nat == 0xF0 + a && t[1] as nat == 0x80 + b && t[2] as nat == 0x80 + c && t[3] as nat == 0x80 + d;
  }

  /** The operations of the source on machine words compute these bytes. */
  lemma ContinuationBits(uc: bv32)
    ensures ((uc | 0x80) & 0xBF) == 0x80 + uc % 0x40
    ensures uc >> 6 == uc / 0x40
  {
  }

  predicate IsUtf8(t: string)
    decreases |t|
  {
    t == "" || (FirstCodePoint(t).1 > 0 && IsUtf8(t[FirstCodePoint(t).1..]))
  }

  lemma Utf8Step(uc: nat, rest: string)
    requires 0 < uc && IsScalar(uc) && IsUtf8(rest)
    ensures IsUtf8(Utf8(uc) + rest)
  {
    hide FirstCodePoint, Utf8;
    Utf8RoundTrip(uc, rest);
    assert (Utf8(uc) + rest)[Utf8Length(uc)..] == rest;
  }

  /** A first code point stays one whatever follows it. */
  lemma FirstCodePointStays(t: string, rest: string)
    requires FirstCodePoint(t).1 > 0
    ensures FirstCodePoint(t[..FirstCodePoint(t).1] + rest) == FirstCodePoint(t)
  {
    var head := t[..FirstCodePoint(t).1];
    assert forall k :: 0 <= k < |head| ==> (head + rest)[k] == t[k];
  }

  lemma SameCodePoint(t: string, rest: string)
    requires FirstCodePoint(t).1 > 0 && IsUtf8(rest)
    ensures IsUtf8(t[..FirstCodePoint(t).1] + rest)
  {
    hide FirstCodePoint;
    var n := FirstCodePoint(t).1;
    FirstCodePointStays(t, rest);
    assert (t[..n] + rest)[n..] == rest;
  }

  /** Bytes of a multi-byte code point are above 7F, so decoding copies them. */
  lemma {:induction false} CopiesHighBytes(s: string, p: nat, end: nat, n: nat)
    requires p + n <= end <= |s| && forall k :: p <= k < p + n ==> s[k] >= 0x80 as char
    ensures Decode(s, p, end) == Prepend(s[p..p + n], Decode(s, p + n, end))
    ensures StringEnd(s, p) == StringEnd(s, p + n)
    decreases n
  {
    hide Prepend, UnicodeEscape, Utf8;
    if n == 0 {
      PrependNothing(Decode(s, p, end));
    } else {
      CopiesHighBytes(s, p + 1, end, n - 1);
      PrependTwice([s[p]], s[p + 1..p + n], Decode(s, p + n, end));
      assert [s[p]] + s[p + 1..p + n] == s[p..p + n];
    }
  }

  lemma PrependNothing(d: Decoded)
    ensures Prepend("", d) == d
  {
  }

  /** A literal in UTF-8 decodes to a string in UTF-8, whatever escapes it contains. */
  lemma {:induction false} DecodingKeepsUtf8(s: string, p: nat)
    requires var end := StringEnd(s, p); end < |s| && s[end] == '\"' && IsUtf8(s[p..end])
    ensures var d := Decode(s, p, StringEnd(s, p)); d.Body? ==> IsUtf8(d.str)
    decreases |s| - p, 1
  {
    hide Decode, StringEnd, UnicodeEscape, Utf8, FirstCodePoint, IsUtf8;
    var end := StringEnd(s, p);
    if p == end {
      DecodeStops(s, p, end);
      assert IsUtf8("") by {
        EmptyIsUtf8();
      }
    } else {
      var t := s[p..end];
      var n := FirstCodePoint(t).1;
      UnfoldUtf8(t);
      assert t[n..] == s[p + n..end];
      if s[p] >= 0x80 as char {
        HighBytes(t);
        assert forall k :: p <= k < p + n ==> s[k] == t[k - p];
        CopiesHighBytes(s, p, end, n);
        DecodingKeepsUtf8(s, p + n);
        var d := Decode(s, p + n, end);
        if d.Body? {
          SameCodePoint(t, d.str);
          assert t[..n] == s[p..p + n];
        }
      } else {
        LowByte(t);
        if s[p] == '\\' {
          EscapeKeepsUtf8(s, p);
        } else {
          SimpleStep(s, p);
          DecodingKeepsUtf8(s, p + 1);
          var d := Decode(s, p + 1, end);
          if d.Body? {
            AsciiStep(s[p], d.str);
          }
        }
      }
    }
  }

  /** The step over a backslash at p. */
  lemma {:induction false} EscapeKeepsUtf8(s: string, p: nat)
    requires var end := StringEnd(s, p); p < end < |s| && s[end] == '\"' && IsUtf8(s[p + 1..end])
    requires s[p] == '\\'
    ensures var d := Decode(s, p, StringEnd(s, p)); d.Body? ==> IsUtf8(d.str)
    decreases |s| - p, 0
  {
    hide Decode, UnicodeEscape, Utf8, FirstCodePoint, IsUtf8, StringEnd, StringRoom, SimpleEscape;
    var end := StringEnd(s, p);
    BackslashInside(s, p);
    var t := s[p + 1..end];
    if s[p + 1] == 'u' {
      UnicodeStep(s, p);
      var e := UnicodeEscape(s, p + 1, end);
      if e.CodePoint? {
        EscapeIsAscii(s, p, end);
        assert forall k :: 0 <= k < e.last - p ==> t[k] == s[p + 1 + k];
        DropAscii(t, e.last - p);
        assert t[e.last - p..] == s[e.last + 1..end];
        DecodingKeepsUtf8(s, e.last + 1);
        var d := Decode(s, e.last + 1, end);
        if d.Body? {
          EscapeIsUtf16(s, p + 1, end, e.uc, e.last);
          Utf8Step(e.uc, d.str);
        }
      }
    } else if s[p + 1] < 0x80 as char {
      SimpleStep(s, p);
      DropAscii(t, 1);
      assert t[1..] == s[p + 2..end];
      DecodingKeepsUtf8(s, p + 2);
      var d := Decode(s, p + 2, end);
      if d.Body? {
        AsciiStep(SimpleEscape(s[p + 1]), d.str);
      }
    } else {
      SimpleStep(s, p);
      UnfoldUtf8(t);
      HighBytes(t);
      var n := FirstCodePoint(t).1;
      assert forall k :: p + 1 <= k < p + 1 + n ==> s[k] == t[k - p - 1];
      CopiesHighBytes(s, p + 2, end, n - 1);
      assert t[n..] == s[p + 1 + n..end];
      DecodingKeepsUtf8(s, p + 1 + n);
      var d := Decode(s, p + 1 + n, end);
      PrependTwice([s[p + 1]], s[p + 2..p + 1 + n], d);
      if d.Body? {
        SameCodePoint(t, d.str);
        assert t[..n] == [s[p + 1]] + s[p + 2..p + 1 + n];
      }
    }
  }

  lemma BackslashInside(s: string, p: nat)
    requires p < |s| && s[p] == '\\'
    ensures p + 2 <= StringEnd(s, p)
    ensures forall c: char :: c < 0x80 as char ==> SimpleEscape(c) < 0x80 as char
    ensures forall c: char :: c >= 0x80 as char ==> SimpleEscape(c) == c
  {
  }

  /** The characters of an accepted escape. */
  lemma EscapeIsAscii(s: string, p: nat, end: nat)
    requires p + 1 < end < |s| && s[p + 1] == 'u' && s[end] == '\"'
    ensures var e := UnicodeEscape(s, p + 1, end);
            e.CodePoint? ==> e.last < end && forall k :: p + 1 <= k <= e.last ==> s[k] < 0x80 as char
  {
    hide Hex4;
    var e := UnicodeEscape(s, p + 1, end);
    if e.CodePoint? {
      assert forall k :: p + 2 <= k < p + 6 ==> IsHex(s[k]);
      if e.last == p + 11 {
        assert forall k :: p + 8 <= k < p + 12 ==> IsHex(s[k]);
      }
    }
  }

  lemma {:induction false} DropAscii(t: string, n: nat)
    requires n <= |t| && IsUtf8(t) && forall k :: 0 <= k < n ==> t[k] < 0x80 as char
    ensures IsUtf8(t[n..])
    decreases n
  {
    hide FirstCodePoint;
    if n == 0 {
      assert t[0..] == t;
    } else {
      LowByte(t);
      DropAscii(t[1..], n - 1);
      assert t[1..][n - 1..] == t[n..];
    }
  }

  lemma AsciiStep(c: char, rest: string)
    requires c < 0x80 as char && IsUtf8(rest)
    ensures IsUtf8([c] + rest)
  {
    hide FirstCodePoint;
    LowByte([c] + rest);
    assert ([c] + rest)[1..] == rest;
  }

  lemma EmptyIsUtf8()
    ensures IsUtf8("")
  {
  }

  lemma UnfoldUtf8(t: string)
    requires t != "" && IsUtf8(t)
    ensures FirstCodePoint(t).1 > 0 && IsUtf8(t[FirstCodePoint(t).1..])
  {
  }

  lemma HighBytes(t: string)
    requires t != "" && t[0] >= 0x80 as char
    ensures forall k :: 0 <= k < FirstCodePoint(t).1 ==> t[k] >= 0x80 as char
  {
  }

  lemma LowByte(t: string)
    requires t != "" && t[0] < 0x80 as char
    ensures FirstCodePoint(t) == (t[0] as nat, 1)
  {
  }
}
