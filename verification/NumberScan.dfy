/**
 parse_number as an automaton: which characters it takes after those it has taken, and that what it reads depends on
 them alone.
 */
module NumberScan {
  import opened CText
  import opened Json
  import opened Numerals
  import opened JsonParse
  import opened Wrappers

  /** What has been taken last. */
  datatype State = Nothing | Minus | Zero | Whole | Point | Fraction | Mark | Sign | Exponent

  predicate IsNumberCharacter(c: char) {
    IsDigit(c) || c == '-' || c == '+' || c == '.' || c == 'e' || c == 'E'
  }

  /** The state after the character c, with d behind it, or None if c is not taken. */
  function Step(state: State, c: char, d: char): (r: Option<State>)
    ensures r.Some? ==> IsNumberCharacter(c)
  {
    match state
    case Nothing => if c == '-' then Some(Minus) else AfterMinus(c, d)
    case Minus => AfterMinus(c, d)
    case Zero => AfterZero(c, d)
    case Whole => if IsDigit(c) then Some(Whole) else AfterWhole(c, d)
    case Point => if IsDigit(c) then Some(Fraction) else None
    case Fraction => if IsDigit(c) then Some(Fraction) else AfterFraction(c)
    case Mark => if c == '+' || c == '-' then Some(Sign) else if IsDigit(c) then Some(Exponent) else None
    case Sign => if IsDigit(c) then Some(Exponent) else None
    case Exponent => if IsDigit(c) then Some(Exponent) else None
  }

  function AfterMinus(c: char, d: char): Option<State> {
    if c == '0' then Some(Zero) else AfterZero(c, d)
  }

  function AfterZero(c: char, d: char): Option<State> {
    if '1' <= c <= '9' then Some(Whole) else AfterWhole(c, d)
  }

  function AfterWhole(c: char, d: char): Option<State> {
    if c == '.' && IsDigit(d) then Some(Point) else AfterFraction(c)
  }

  function AfterFraction(c: char): Option<State> {
    if c == 'e' || c == 'E' then Some(Mark) else None
  }

  /** Where a number ends that is in the given state at offset i. */
  function ScanEnd(s: string, i: nat, state: State): (e: nat)
    ensures i <= e && (i <= |s| ==> e <= |s|)
    decreases Left(s, i)
  {
    match Step(state, At(s, i), At(s, i + 1))
    case None => i
    case Some(next) => ScanEnd(s, i + 1, next)
  }

  /** The state after n more characters. */
  function StateAfter(s: string, i: nat, state: State, n: nat): State
    decreases n
  {
    if n == 0 then state
    else
      match Step(state, At(s, i), At(s, i + 1))
      case None => state
      case Some(next) => StateAfter(s, i + 1, next, n - 1)
  }

  // ---- the automaton and the routine ----

  lemma {:induction false} DigitsEnd(s: string, i: nat, acc: nat)
    ensures ScanEnd(s, i, Exponent) == ScanDigits(s, i, acc).1
    decreases Left(s, i)
  {
    if IsDigit(At(s, i)) {
      DigitsEnd(s, i + 1, acc * 10 + DigitValue(s[i]));
    }
  }

  lemma ExponentEnd(s: string, i: nat, state: State)
    requires Step(state, At(s, i), At(s, i + 1)) == AfterFraction(At(s, i))
    ensures ScanEnd(s, i, state) == ParsedExponent(s, i).1
  {
    hide ScanDigits;
    if At(s, i) == 'e' || At(s, i) == 'E' {
      DigitsEnd(s, i + 1, 0);
      DigitsEnd(s, i + 2, 0);
      SameDigits(s, i + 1);
      SameDigits(s, i + 2);
    }
  }

  lemma SameDigits(s: string, i: nat)
    ensures ScanEnd(s, i, Sign) == ScanEnd(s, i, Exponent)
    ensures !(At(s, i) == '+' || At(s, i) == '-') ==> ScanEnd(s, i, Mark) == ScanEnd(s, i, Exponent)
  {
  }

  lemma {:induction false} FractionEnd(s: string, i: nat, acc: nat)
    ensures ScanEnd(s, i, Fraction) == ParsedExponent(s, ScanDigits(s, i, acc).1).1
    decreases Left(s, i)
  {
    hide ParsedExponent;
    if IsDigit(At(s, i)) {
      FractionEnd(s, i + 1, acc * 10 + DigitValue(s[i]));
    } else {
      ExponentEnd(s, i, Fraction);
    }
  }

  /** Behind the whole part: a fraction, and an exponent. */
  function RestEnd(s: string, i: nat, acc: nat): nat {
    var fraction := At(s, i) == '.' && IsDigit(At(s, i + 1));
    ParsedExponent(s, if fraction then ScanDigits(s, i + 1, acc).1 else i).1
  }

  lemma WholeEnd(s: string, i: nat, state: State, acc: nat)
    requires Step(state, At(s, i), At(s, i + 1)) == AfterWhole(At(s, i), At(s, i + 1))
    ensures ScanEnd(s, i, state) == RestEnd(s, i, acc)
  {
    hide ParsedExponent, ScanDigits;
    if At(s, i) == '.' && IsDigit(At(s, i + 1)) {
      FractionEnd(s, i + 1, acc);
      assert ScanEnd(s, i + 1, Point) == ScanEnd(s, i + 1, Fraction);
    } else {
      ExponentEnd(s, i, state);
    }
  }

  lemma {:induction false} DigitsThenRest(s: string, i: nat, acc: nat)
    ensures ScanEnd(s, i, Whole) == RestEnd(s, ScanDigits(s, i, acc).1, ScanDigits(s, i, acc).0)
    decreases Left(s, i)
  {
    hide RestEnd;
    if IsDigit(At(s, i)) {
      DigitsThenRest(s, i + 1, acc * 10 + DigitValue(s[i]));
    } else {
      WholeEnd(s, i, Whole, acc);
    }
  }

  lemma ZeroEnd(s: string, i: nat, state: State)
    requires Step(state, At(s, i), At(s, i + 1)) == AfterZero(At(s, i), At(s, i + 1))
    ensures var (n, i3) := if '1' <= At(s, i) <= '9' then ScanDigits(s, i, 0) else (0, i);
            ScanEnd(s, i, state) == RestEnd(s, i3, n)
  {
    hide RestEnd;
    if '1' <= At(s, i) <= '9' {
      DigitsThenRest(s, i, 0);
      assert ScanEnd(s, i, Whole) == ScanEnd(s, i + 1, Whole);
    } else {
      WholeEnd(s, i, state, 0);
    }
  }

  lemma MagnitudeEnd(s: string, i: nat, state: State)
    requires Step(state, At(s, i), At(s, i + 1)) == AfterMinus(At(s, i), At(s, i + 1))
    ensures ScanEnd(s, i, state) == ParsedMagnitude(s, i).2
  {
    hide ScanDigits, ParsedExponent;
    ZeroEnd(s, if At(s, i) == '0' then i + 1 else i, if At(s, i) == '0' then Zero else state);
  }

  /** The routine stops where the automaton does. */
  lemma NumberEnd(s: string, i: nat)
    ensures ParsedNumber(s, i).end == ScanEnd(s, i, Nothing)
  {
    hide ParsedMagnitude;
    if At(s, i) == '-' {
      MagnitudeEnd(s, i + 1, Minus);
    } else {
      MagnitudeEnd(s, i, Nothing);
    }
  }

  // ---- what stands behind the number does not matter ----

  lemma {:induction false} DigitsCut(s: string, i: nat, acc: nat, f: nat)
    requires ScanDigits(s, i, acc).1 <= f <= |s|
    ensures ScanDigits(s[..f], i, acc) == ScanDigits(s, i, acc)
    decreases Left(s, i)
  {
    if IsDigit(At(s, i)) {
      DigitsCut(s, i + 1, acc * 10 + DigitValue(s[i]), f);
    }
  }

  lemma ExponentCut(s: string, i: nat, f: nat)
    requires ParsedExponent(s, i).1 <= f <= |s|
    ensures ParsedExponent(s[..f], i) == ParsedExponent(s, i)
  {
    hide ScanDigits;
    if At(s, i) == 'e' || At(s, i) == 'E' {
      DigitsCut(s, if At(s, i + 1) == '+' || At(s, i + 1) == '-' then i + 2 else i + 1, 0, f);
    }
  }

  /** The whole part of a number, and where it ends. */
  function WholeDigits(s: string, i: nat): (r: (nat, nat))
    ensures i <= r.1
  {
    var i2 := if At(s, i) == '0' then i + 1 else i;
    if '1' <= At(s, i2) <= '9' then ScanDigits(s, i2, 0) else (0, i2)
  }

  lemma WholeCut(s: string, i: nat, f: nat)
    requires WholeDigits(s, i).1 <= f <= |s|
    ensures WholeDigits(s[..f], i) == WholeDigits(s, i)
  {
    hide ScanDigits;
    var i2 := if At(s, i) == '0' then i + 1 else i;
    CutAt(s, i, f);
    CutAt(s, i2, f);
    if '1' <= At(s, i2) <= '9' {
      DigitsMove(s, i2, 0);
      DigitsCut(s, i2, 0, f);
    }
  }

  lemma MagnitudeCut(s: string, i: nat, f: nat)
    requires ParsedMagnitude(s, i).2 <= f <= |s|
    ensures ParsedMagnitude(s[..f], i) == ParsedMagnitude(s, i)
  {
    hide ScanDigits, ParsedExponent;
    var (n, i3) := WholeDigits(s, i);
    var fraction := At(s, i3) == '.' && IsDigit(At(s, i3 + 1));
    var i4 := if fraction then ScanDigits(s, i3 + 1, n).1 else i3;
    WholeCut(s, i, f);
    if fraction {
      DigitsCut(s, i3 + 1, n, f);
      DigitsMove(s, i3 + 1, n);
    }
    ExponentCut(s, i4, f);
    CutAt(s, i3, f);
    CutAt(s, i3 + 1, f);
  }

  lemma DigitsMove(s: string, i: nat, acc: nat)
    requires IsDigit(At(s, i))
    ensures i < ScanDigits(s, i, acc).1
  {
  }

  lemma CutAt(s: string, i: nat, f: nat)
    requires f <= |s|
    ensures At(s[..f], i) == if i < f then At(s, i) else 0 as char
  {
  }

  lemma NumberCut(s: string, i: nat, f: nat)
    requires ParsedNumber(s, i).end <= f <= |s|
    ensures ParsedNumber(s[..f], i) == ParsedNumber(s, i)
  {
    hide ParsedMagnitude, Scaled;
    MagnitudeCut(s, if At(s, i) == '-' then i + 1 else i, f);
  }
}
