/**
 Every number of the JSON grammar (section 6 of RFC 8259) is read as its value: an integer with a fraction, times a
 power of ten.
 */
module JsonNumber {
  import opened CText
  import opened Json
  import opened Numerals
  import opened JsonParse

  /** What parse_number cannot take as a continuation of a number. */
  predicate NumberEnds(s: string, e: nat) {
    && !IsDigit(At(s, e))
    && At(s, e) != 'e' && At(s, e) != 'E'
    && !(At(s, e) == '.' && IsDigit(At(s, e + 1)))
  }

  // ---- the loops ----

  lemma {:induction false} ScaledIsProduct(m: int, e: int)
    ensures Scaled(m, e) == m as real * Ten(e)
    decreases if e < 0 then -e else e
  {
    if e > 0 {
      ScaledIsProduct(m, e - 1);
    } else if e < 0 {
      ScaledIsProduct(m, e + 1);
    }
  }

  /** Digits already read, and digits to come up to something else. */
  lemma {:induction false} ScanMore(done: string, t: string, s: string, i: nat)
    requires AllDigits(done) && AllDigits(t) && Occurs(s, i, t) && !IsDigit(At(s, i + |t|))
    ensures AllDigits(done + t)
    ensures ScanDigits(s, i, NatOf(done)) == (NatOf(done + t), i + |t|)
    decreases |t|
  {
    if t == "" {
      assert done + t == done;
    } else {
      assert (done + [t[0]])[..|done|] == done;
      assert done + [t[0]] + t[1..] == done + t;
      OccursHead(s, i, t);
      ScanMore(done + [t[0]], t[1..], s, i + 1);
    }
  }

  lemma ExponentParsed(n: Numeral, s: string, i: nat)
    requires IsNumeral(n) && Occurs(s, i, ExponentText(n)) && NumberEnds(s, i + |ExponentText(n)|)
    ensures ParsedExponent(s, i) ==
            (Signed(n.sign == "-" && n.exponent != "", NatOf(n.exponent)), i + |ExponentText(n)|)
  {
    hide ScanDigits, NatOf;
    if n.exponent == "" {
      NatOfNothing();
    } else {
      OccursSplit(s, i, [n.mark] + n.sign, n.exponent);
      OccursSplit(s, i, [n.mark], n.sign);
      NatOfNothing();
      ScanMore("", n.exponent, s, i + 1 + |n.sign|);
      assert "" + n.exponent == n.exponent;
      OccursAt(s, i + 1 + |n.sign|, n.exponent, 0);
      assert n.exponent[0] in n.exponent;
      if n.sign != "" {
        OccursAt(s, i + 1, n.sign, 0);
      }
      OccursAt(s, i, [n.mark], 0);
    }
  }

  lemma NatOfNothing()
    ensures NatOf("") == 0 && NatOf("0") == 0
  {
    assert "0"[..0] == "";
  }

  lemma WholeParsed(n: Numeral, s: string, i: nat)
    requires IsNumeral(n) && Occurs(s, i, n.whole) && !IsDigit(At(s, i + |n.whole|))
    ensures var i2 := if At(s, i) == '0' then i + 1 else i;
            (if '1' <= At(s, i2) <= '9' then ScanDigits(s, i2, 0) else (0, i2)) == (NatOf(n.whole), i + |n.whole|)
  {
    hide ScanDigits, NatOf;
    OccursAt(s, i, n.whole, 0);
    assert n.whole[0] in n.whole;
    NatOfNothing();
    if n.whole != "0" {
      ScanMore("", n.whole, s, i);
      assert "" + n.whole == n.whole;
    }
  }

  /** What stands behind the whole part and behind the fraction is no digit, and no other fraction. */
  lemma PartsEnd(n: Numeral, s: string, i: nat)
    requires IsNumeral(n) && Occurs(s, i, ExponentText(n)) && NumberEnds(s, i + |ExponentText(n)|)
    ensures !IsDigit(At(s, i)) && !(At(s, i) == '.' && IsDigit(At(s, i + 1)))
  {
    if n.exponent != "" {
      OccursAt(s, i, ExponentText(n), 0);
    }
  }

  lemma MagnitudeParsed(n: Numeral, s: string, i: nat)
    requires IsNumeral(n) && Occurs(s, i, n.whole + (FractionText(n) + ExponentText(n)))
    requires NumberEnds(s, i + |n.whole| + |FractionText(n)| + |ExponentText(n)|)
    ensures ParsedMagnitude(s, i) ==
            (NatOf(n.whole + n.fraction), Power(n), i + |n.whole| + |FractionText(n)| + |ExponentText(n)|)
  {
    hide ScanDigits, NatOf, ExponentText, ParsedExponent, NumberEnds;
    var i3 := i + |n.whole|;
    var i4 := i3 + |FractionText(n)|;
    OccursSplit(s, i, n.whole, FractionText(n) + ExponentText(n));
    OccursSplit(s, i3, FractionText(n), ExponentText(n));
    PartsEnd(n, s, i4);
    ExponentParsed(n, s, i4);
    if n.fraction == "" {
      assert n.whole + n.fraction == n.whole;
    } else {
      OccursSplit(s, i3, ".", n.fraction);
      OccursAt(s, i3, ".", 0);
      OccursAt(s, i3 + 1, n.fraction, 0);
      assert n.fraction[0] in n.fraction;
      ScanMore(n.whole, n.fraction, s, i3 + 1);
    }
    WholeParsed(n, s, i);
  }

  /** The theorem of this module: the exact value, and the end of the number, if nothing follows that could belong
      to it. */
  lemma NumeralParsed(n: Numeral, s: string, i: nat)
    requires IsNumeral(n) && Occurs(s, i, NumeralText(n)) && NumberEnds(s, i + |NumeralText(n)|)
    ensures ParsedNumber(s, i) == Done(Number(ValueOf(n)), i + |NumeralText(n)|)
    ensures At(s, i) == '-' || IsDigit(At(s, i))
  {
    hide ParsedMagnitude, NumberEnds, FractionText, ExponentText, NatOf, Scaled, Ten, Power;
    var rest := n.whole + (FractionText(n) + ExponentText(n));
    OccursSplit(s, i, if n.negative then "-" else "", rest);
    var start := if n.negative then i + 1 else i;
    MagnitudeParsed(n, s, start);
    if n.negative {
      OccursAt(s, i, "-", 0);
    } else {
      assert NumeralText(n) == rest;
      OccursAt(s, i, rest, 0);
      assert rest[0] == n.whole[0] && n.whole[0] in n.whole;
    }
    var v := NatOf(n.whole + n.fraction);
    var r := ParsedNumber(s, i);
    ScaledIsProduct(Signed(n.negative, v), Power(n));
    assert r.item.Number? && r.end == i + |NumeralText(n)|;
    assert r.item.value == Scaled(Signed(n.negative, v), Power(n)) == ValueOf(n);
  }
}
