/**
 Numbers as text: the numerals of the JSON grammar (section 6 of RFC 8259), the values they denote, and the ones that
 print_number chooses (cjson.c), which is what sprintf makes of "%lld", "%.0f", "%e" and "%f".
 */
module Numerals {
  import opened CText

  // ---- digits ----

  function DigitChar(d: nat): (c: char)
    requires d < 10
    ensures IsDigit(c) && DigitValue(c) == d
  {
    '0' + d as char
  }

  function DigitValue(c: char): (d: nat)
    requires IsDigit(c)
    ensures d < 10
  {
    (c - '0') as nat
  }

  predicate AllDigits(t: string) {
    forall c <- t :: IsDigit(c)
  }

  function Digits(n: nat): (t: string)
    ensures t != [] && AllDigits(t)
    ensures t[0] == '0' ==> n == 0 && t == "0"
  {
    if n < 10 then [DigitChar(n)] else Digits(n / 10) + [DigitChar(n % 10)]
  }

  /** The last k digits of n. */
  function Padded(n: nat, k: nat): (t: string)
    ensures |t| == k && AllDigits(t)
  {
    if k == 0 then "" else Padded(n / 10, k - 1) + [DigitChar(n % 10)]
  }

  /** The number that digits denote. */
  function NatOf(t: string): nat
    requires AllDigits(t)
  {
    if t == "" then 0 else NatOf(t[..|t| - 1]) * 10 + DigitValue(t[|t| - 1])
  }

  // ---- numerals ----

  /** The parts of a number.  No fraction and no exponent are empty strings of digits. */
  datatype Numeral = Numeral(negative: bool, whole: string, fraction: string, mark: char, sign: string,
                             exponent: string)

  /** What the grammar allows. */
  predicate IsNumeral(n: Numeral) {
    && AllDigits(n.whole) && AllDigits(n.fraction) && AllDigits(n.exponent)
    && n.whole != "" && (n.whole[0] == '0' ==> n.whole == "0")
    && (n.mark == 'e' || n.mark == 'E') && (n.sign == "" || n.sign == "+" || n.sign == "-")
  }

  function FractionText(n: Numeral): string {
    if n.fraction == "" then "" else "." + n.fraction
  }

  function ExponentText(n: Numeral): string {
    if n.exponent == "" then "" else [n.mark] + n.sign + n.exponent
  }

  function NumeralText(n: Numeral): string {
    (if n.negative then "-" else "") + (n.whole + (FractionText(n) + ExponentText(n)))
  }

  function Signed(negative: bool, n: nat): int {
    if negative then -(n as int) else n
  }

  function Ten(e: int): real
    decreases if e < 0 then -e else e
  {
    if e == 0 then 1.0 else if e > 0 then Ten(e - 1) * 10.0 else Ten(e + 1) / 10.0
  }

  function Power(n: Numeral): int
    requires IsNumeral(n)
  {
    Signed(n.sign == "-" && n.exponent != "", NatOf(n.exponent)) - |n.fraction|
  }

  function ValueOf(n: Numeral): real
    requires IsNumeral(n)
  {
    Signed(n.negative, NatOf(n.whole + n.fraction)) as real * Ten(Power(n))
  }

  // ---- the conversions of sprintf ----

  function Absolute(v: real): real {
    if v < 0.0 then -v else v
  }

  /** To the nearest integer, and to the even one of two. */
  function Rounded(x: real): nat
    requires 0.0 <= x
  {
    var rest := x - x.Floor as real;
    if rest < 0.5 || (rest == 0.5 && x.Floor % 2 == 0) then x.Floor else x.Floor + 1
  }

  /** "%lld", and "%.0f" of a whole number */
  function Integer(n: int): (m: Numeral)
    ensures IsNumeral(m)
  {
    Numeral(n < 0, Digits(if n < 0 then -n else n), "", 'e', "", "")
  }

  /** "%f" */
  function Fixed(v: real): (m: Numeral)
    ensures IsNumeral(m)
  {
    var n := Rounded(Absolute(v) * 1_000_000.0);
    Numeral(v < 0.0, Digits(n / 1_000_000), Padded(n % 1_000_000, 6), 'e', "", "")
  }

  /** The power of ten of the first digit of x. */
  function Exponent(x: real): int
    requires 0.0 < x
    decreases if x >= 10.0 then x.Floor else if x < 1.0 then (1.0 / x).Floor else 0
  {
    if x >= 10.0 then ShrinkingFloor(x); Exponent(x / 10.0) + 1
    else if x < 1.0 then GrowingFloor(x); Exponent(x * 10.0) - 1
    else 0
  }

  lemma ShrinkingFloor(x: real)
    requires x >= 10.0
    ensures x / 10.0 >= 1.0 && 0 <= (x / 10.0).Floor < x.Floor
  {
  }

  lemma GrowingFloor(x: real)
    requires 0.0 < x < 1.0
    ensures 0.0 < x * 10.0 < 10.0 && 0 <= (1.0 / (x * 10.0)).Floor < (1.0 / x).Floor
  {
    var y := 1.0 / x;
    assert y * x == 1.0;
    assert y > 1.0;
    assert 1.0 / (x * 10.0) == y / 10.0;
  }

  /** "%e": one digit, six more, and an exponent of at least two */
  function Scientific(v: real): (m: Numeral)
    requires v != 0.0
    ensures IsNumeral(m)
  {
    var e := Exponent(Absolute(v));
    MantissaRange(Absolute(v));
    var n := Rounded(Absolute(v) / Ten(e) * 1_000_000.0);
    if n == 10_000_000 then Scaled10(v < 0.0, 1_000_000, e + 1) else Scaled10(v < 0.0, n, e)
  }

  function Scaled10(negative: bool, n: nat, e: int): (m: Numeral)
    requires 1_000_000 <= n < 10_000_000
    ensures IsNumeral(m)
  {
    var size: nat := if e < 0 then -e else e;
    Numeral(negative, [DigitChar(n / 1_000_000)], Padded(n % 1_000_000, 6), 'e', if e < 0 then "-" else "+",
            if size < 100 then Padded(size, 2) else Digits(size))
  }

  lemma {:induction false} TenPositive(e: int)
    ensures 0.0 < Ten(e) && Ten(e + 1) == Ten(e) * 10.0
    decreases if e < 0 then -e else e
  {
    if e > 0 {
      TenPositive(e - 1);
    } else if e < 0 {
      TenPositive(e + 1);
    }
  }

  lemma {:induction false} ExponentRange(x: real)
    requires 0.0 < x
    ensures 0.0 < Ten(Exponent(x)) <= x < Ten(Exponent(x)) * 10.0
    decreases if x >= 10.0 then x.Floor else if x < 1.0 then (1.0 / x).Floor else 0
  {
    if x >= 10.0 {
      ShrinkingFloor(x);
      ExponentRange(x / 10.0);
      TenPositive(Exponent(x / 10.0));
    } else if x < 1.0 {
      GrowingFloor(x);
      ExponentRange(x * 10.0);
      TenPositive(Exponent(x));
    }
  }

  lemma MantissaRange(x: real)
    requires 0.0 < x
    ensures 0.0 < Ten(Exponent(x)) && 0.0 <= x / Ten(Exponent(x)) * 1_000_000.0
    ensures 1_000_000 <= Rounded(x / Ten(Exponent(x)) * 1_000_000.0) <= 10_000_000
  {
    ExponentRange(x);
    QuotientRange(x, Ten(Exponent(x)));
  }

  lemma QuotientRange(x: real, t: real)
    requires 0.0 < t <= x < t * 10.0
    ensures 1.0 <= x / t < 10.0
    ensures 0.0 <= x / t * 1_000_000.0 && 1_000_000 <= Rounded(x / t * 1_000_000.0) <= 10_000_000
  {
    QuotientBounds(x, t, x / t);
  }

  lemma QuotientBounds(x: real, t: real, m: real)
    requires 0.0 < t <= x < t * 10.0 && m * t == x
    ensures 1.0 <= m < 10.0
  {
    if m < 1.0 {
      ProductLess(m, 1.0, t);
    }
    if m >= 10.0 {
      ProductLess(10.0, m, t);
    }
  }

  lemma ProductLess(a: real, b: real, t: real)
    requires a <= b && 0.0 < t
    ensures a * t <= b * t && (a < b ==> a * t < b * t)
  {
  }

  // ---- print_number ----

  // Ten(-i) that the limits of the source are written with, and DBL_EPSILON.
  const EPSILON: real := 1.0 / 4_503_599_627_370_496.0
  const LLONG_LIMIT: real := 9_223_372_036_854_775_808.0

  // The doubles end a little below 1.8 * 10^308.
  const LARGEST_POWER: int := 308

  /** The cast to an integer: the fraction is lost. */
  function Truncated(v: real): int {
    if v < 0.0 then -(-v).Floor else v.Floor
  }

  /** A double other than an infinity. */
  predicate IsFinite(v: real) {
    Absolute(v) <= 1.8 * Ten(LARGEST_POWER)
  }

  predicate PrintsAsInteger(v: real) {
    Absolute(Truncated(v) as real - v) <= EPSILON && -LLONG_LIMIT <= v < LLONG_LIMIT
  }

  predicate PrintsAsWhole(v: real) {
    Absolute(v.Floor as real - v) <= EPSILON && Absolute(v) < Ten(60)
  }

  predicate PrintsScientific(v: real) {
    Absolute(v) < 0.000001 || Absolute(v) > 1_000_000_000.0
  }

  function NumeralFor(v: real): (m: Numeral)
    ensures IsNumeral(m)
  {
    if v == 0.0 then Integer(0)
    else if PrintsAsInteger(v) then Integer(Truncated(v))
    else if PrintsAsWhole(v) then Integer(Signed(v < 0.0, Rounded(Absolute(v))))
    else if PrintsScientific(v) then Scientific(v)
    else Fixed(v)
  }

  /** The number that the text of v denotes. */
  function Shown(v: real): real {
    ValueOf(NumeralFor(v))
  }

  /** The choice of a format, and the format. */
  method FormatNumber(v: real) returns (text: string)
    requires v != 0.0
    ensures text == NumeralText(NumeralFor(v))
  {
    if PrintsAsInteger(v) {
      text := NumeralText(Integer(Truncated(v)));
    } else if PrintsAsWhole(v) {
      text := NumeralText(Integer(Signed(v < 0.0, Rounded(Absolute(v)))));
    } else if PrintsScientific(v) {
      text := NumeralText(Scientific(v));
    } else {
      text := NumeralText(Fixed(v));
    }
  }

  /** Integral and of a size that doubles hold exactly. */
  predicate IsExact(v: real) {
    v == v.Floor as real && -EXACT_MAX <= v.Floor <= EXACT_MAX
  }

  // 2^53, up to which every integer is a double.
  const EXACT_MAX: int := 0x20_0000_0000_0000

  lemma {:induction false} NatOfDigits(n: nat)
    ensures NatOf(Digits(n)) == n
  {
    if n < 10 {
      assert Digits(n)[..0] == "";
    } else {
      NatOfDigits(n / 10);
      assert Digits(n)[..|Digits(n)| - 1] == Digits(n / 10);
    }
  }

  /** An integer is shown as it is. */
  lemma ShownExact(v: real)
    requires IsExact(v)
    ensures NumeralFor(v) == Integer(v.Floor) && Shown(v) == v
  {
    var n := v.Floor;
    var size: nat := if n < 0 then -n else n;
    assert (-v).Floor == -n;
    assert Truncated(v) == n;
    NatOfDigits(size);
    assert Digits(size) + "" == Digits(size);
    assert NatOf("") == 0;
    assert Ten(0) == 1.0;
  }

  // ---- how long the text is ----

  function Pow(b: nat, e: nat): nat {
    if e == 0 then 1 else b * Pow(b, e - 1)
  }

  lemma {:induction false} DigitsLength(n: nat, k: nat)
    requires 0 < k && n < Pow(10, k)
    ensures |Digits(n)| <= k
  {
    if n >= 10 {
      assert n / 10 < Pow(10, k - 1);
      DigitsLength(n / 10, k - 1);
    }
  }

  lemma {:induction false} TenIsPow(k: nat)
    ensures Ten(k) == Pow(10, k) as real
  {
    if k > 0 {
      TenIsPow(k - 1);
    }
  }

  lemma {:induction false} PowSum(a: nat, b: nat)
    ensures Pow(10, a + b) == Pow(10, a) * Pow(10, b)
  {
    if a > 0 {
      PowSum(a - 1, b);
    }
  }

  lemma Powers()
    ensures Pow(10, 9) == 1_000_000_000 && Pow(10, 10) == 10_000_000_000 && Pow(10, 20) == 100_000_000_000_000_000_000
    ensures Pow(10, 3) == 1000
  {
    assert Pow(10, 3) == 1000;
    assert Pow(10, 6) == 1_000_000;
    assert Pow(10, 9) == 1_000_000_000;
    PowSum(10, 10);
  }

  lemma {:induction false} TenMonotone(a: int, b: int)
    requires a <= b
    ensures Ten(a) <= Ten(b)
    decreases b - a
  {
    if a < b {
      TenPositive(b - 1);
      TenMonotone(a, b - 1);
    }
  }

  lemma ExactIsFinite(n: int)
    requires -EXACT_MAX <= n <= EXACT_MAX
    ensures IsExact(n as real) && IsFinite(n as real)
  {
    TenMonotone(16, LARGEST_POWER);
    TenIsPow(16);
    PowSum(8, 8);
    assert Pow(10, 8) == 100_000_000;
  }

  /** The exponents of "%e" have three digits at most. */
  lemma ScientificExponent(v: real)
    requires IsFinite(v) && v != 0.0 && !PrintsAsInteger(v)
    ensures -16 <= Exponent(Absolute(v)) <= LARGEST_POWER
  {
    var x, e := Absolute(v), Exponent(Absolute(v));
    ExponentRange(x);
    if e > LARGEST_POWER {
      TenPositive(LARGEST_POWER);
      TenMonotone(LARGEST_POWER + 1, e);
    }
    if e < -16 {
      TenMonotone(e + 1, -16);
      TenPositive(e);
      SmallTen();
      SmallIsInteger(v);
    }
  }

  lemma SmallIsInteger(v: real)
    requires Absolute(v) < EPSILON
    ensures PrintsAsInteger(v)
  {
    assert Truncated(v) == 0;
  }

  lemma SmallTen()
    ensures Ten(-16) < EPSILON
  {
    assert Ten(-2) == 0.01;
    assert Ten(-4) == 0.0001;
    assert Ten(-6) == 0.000001;
    assert Ten(-8) == 0.00000001;
    assert Ten(-10) == 0.0000000001;
    assert Ten(-12) == 0.000000000001;
    assert Ten(-14) == 0.00000000000001;
    assert Ten(-16) == 0.0000000000000001;
  }

  lemma IntegerLength(n: int, k: nat)
    requires 0 < k && -(Pow(10, k) as int) < n < Pow(10, k)
    ensures |NumeralText(Integer(n))| <= k + 1
  {
    DigitsLength(if n < 0 then -n else n, k);
  }

  lemma WholeLength(v: real)
    requires Absolute(v) < Ten(60)
    ensures |NumeralText(Integer(Signed(v < 0.0, Rounded(Absolute(v)))))| <= 62
  {
    hide Pow, Ten, NumeralText, Integer;
    TenIsPow(60);
    PowGrows(60);
    IntegerLength(Signed(v < 0.0, Rounded(Absolute(v))), 61);
  }

  lemma ScientificLength(v: real)
    requires v != 0.0 && -16 <= Exponent(Absolute(v)) <= LARGEST_POWER
    ensures |NumeralText(Scientific(v))| <= 20
  {
    hide Ten, NumeralText, Scaled10, Exponent;
    var e := Exponent(Absolute(v));
    MantissaRange(Absolute(v));
    var n := Rounded(Absolute(v) / Ten(e) * 1_000_000.0);
    if n == 10_000_000 {
      ScaledLength(v < 0.0, 1_000_000, e + 1);
    } else {
      ScaledLength(v < 0.0, n, e);
    }
  }

  lemma FixedLength(v: real)
    requires Absolute(v) <= 1_000_000_000.0
    ensures |NumeralText(Fixed(v))| <= 20
  {
    hide Digits, Padded, Pow;
    Powers();
    DigitsLength(Rounded(Absolute(v) * 1_000_000.0) / 1_000_000, 10);
  }

  /** Every number fits the 64 characters set aside for it. */
  lemma TextLength(v: real)
    requires IsFinite(v)
    ensures |NumeralText(NumeralFor(v))| <= 62
    ensures v == 0.0 ==> NumeralText(NumeralFor(v)) == "0"
  {
    hide Pow, Ten, Scientific, Fixed, Integer, Rounded, NumeralText, Exponent;
    if v == 0.0 {
      ZeroText();
    } else if PrintsAsInteger(v) {
      Powers();
      IntegerLength(Truncated(v), 20);
    } else if PrintsAsWhole(v) {
      WholeLength(v);
    } else if PrintsScientific(v) {
      ScientificExponent(v);
      ScientificLength(v);
    } else {
      FixedLength(v);
    }
  }

  lemma ZeroText()
    ensures NumeralText(Integer(0)) == "0"
  {
  }

  lemma PowGrows(k: nat)
    ensures Pow(10, k + 1) == 10 * Pow(10, k) && 0 < Pow(10, k)
  {
    TenIsPow(k);
    TenPositive(k);
  }

  lemma ScaledLength(negative: bool, n: nat, e: int)
    requires 1_000_000 <= n < 10_000_000 && -1000 < e < 1000
    ensures |NumeralText(Scaled10(negative, n, e))| <= 20
  {
    hide Digits, Padded, Pow;
    Powers();
    DigitsLength(if e < 0 then -e else e, 3);
  }

  // ---- how near the text is ----

  lemma NatOfMore(t: string, c: char)
    requires AllDigits(t) && IsDigit(c)
    ensures AllDigits(t + [c]) && NatOf(t + [c]) == NatOf(t) * 10 + DigitValue(c)
  {
    assert (t + [c])[..|t|] == t;
  }

  lemma TenFold(a: int, b: int)
    ensures a * b * 10 == a * (10 * b)
  {
  }

  lemma {:induction false} NatOfPadded(t: string, n: nat, k: nat)
    requires AllDigits(t) && n < Pow(10, k)
    ensures AllDigits(t + Padded(n, k)) && NatOf(t + Padded(n, k)) == NatOf(t) * Pow(10, k) + n
    decreases k
  {
    hide NatOf;
    if k == 0 {
      assert t + Padded(n, 0) == t;
    } else {
      NatOfPadded(t, n / 10, k - 1);
      var c := DigitChar(n % 10);
      NatOfMore(t + Padded(n / 10, k - 1), c);
      assert t + Padded(n, k) == t + Padded(n / 10, k - 1) + [c];
      TenFold(NatOf(t), Pow(10, k - 1));
    }
  }

  lemma IntegerValue(n: int)
    ensures ValueOf(Integer(n)) == n as real
  {
    var size: nat := if n < 0 then -n else n;
    NatOfDigits(size);
    assert Digits(size) + "" == Digits(size);
    assert NatOf("") == 0 && Ten(0) == 1.0;
  }

  lemma RoundedNear(x: real, k: int)
    requires 0.0 <= x
    ensures -0.5 <= Rounded(x) as real - x <= 0.5
    ensures Absolute(Rounded(x) as real - x) <= Absolute(k as real - x)
  {
    var f, rest := x.Floor, x - x.Floor as real;
    assert 0.0 <= rest < 1.0;
    assert Rounded(x) == f || Rounded(x) == f + 1;
    if k <= f {
      assert k as real <= f as real;
    } else {
      assert k as real >= f as real + 1.0;
    }
  }

  lemma FixedValue(v: real)
    ensures ValueOf(Fixed(v)) == Signed(v < 0.0, Rounded(Absolute(v) * 1_000_000.0)) as real * 0.000001
  {
    hide Digits, Padded, Rounded;
    var n := Rounded(Absolute(v) * 1_000_000.0);
    assert Pow(10, 6) == 1_000_000;
    NatOfDigits(n / 1_000_000);
    NatOfPadded(Digits(n / 1_000_000), n % 1_000_000, 6);
    assert NatOf("") == 0;
    SmallPowers();
  }

  lemma SmallPowers()
    ensures Ten(-6) == 0.000001
  {
    assert Ten(-3) == 0.001;
  }

  lemma ScaledValue(negative: bool, n: nat, e: int)
    requires 1_000_000 <= n < 10_000_000
    ensures ValueOf(Scaled10(negative, n, e)) == Signed(negative, n) as real * Ten(e - 6)
  {
    hide Digits, Padded, Ten, NatOf, Pow;
    MantissaDigits(n);
    ExponentDigits(if e < 0 then -e else e);
  }

  lemma MantissaDigits(n: nat)
    requires 1_000_000 <= n < 10_000_000
    ensures AllDigits([DigitChar(n / 1_000_000)] + Padded(n % 1_000_000, 6))
    ensures NatOf([DigitChar(n / 1_000_000)] + Padded(n % 1_000_000, 6)) == n
  {
    assert Pow(10, 6) == 1_000_000;
    hide Padded, NatOf, Pow;
    NatOfPadded([DigitChar(n / 1_000_000)], n % 1_000_000, 6);
    OneDigit(DigitChar(n / 1_000_000));
  }

  lemma ExponentDigits(size: nat)
    ensures NatOf(if size < 100 then Padded(size, 2) else Digits(size)) == size
  {
    assert Pow(10, 2) == 100 && NatOf("") == 0;
    hide Digits, Padded, NatOf, Pow;
    if size < 100 {
      NatOfPadded("", size, 2);
      assert "" + Padded(size, 2) == Padded(size, 2);
    } else {
      NatOfDigits(size);
    }
  }

  lemma OneDigit(c: char)
    requires IsDigit(c)
    ensures NatOf([c]) == DigitValue(c)
  {
    assert [c][..0] == "";
  }

  /** An integer near v. */
  lemma WholeShown(v: real)
    requires Absolute(v.Floor as real - v) <= EPSILON
    ensures Absolute(ValueOf(Integer(Signed(v < 0.0, Rounded(Absolute(v))))) - v) <= EPSILON
  {
    hide Integer, ValueOf;
    IntegerValue(Signed(v < 0.0, Rounded(Absolute(v))));
    RoundedNear(Absolute(v), if v < 0.0 then -v.Floor else v.Floor);
  }

  lemma FixedShown(v: real)
    ensures Absolute(ValueOf(Fixed(v)) - v) <= 0.0000005
  {
    hide Fixed, ValueOf;
    FixedValue(v);
    RoundedNear(Absolute(v) * 1_000_000.0, 0);
  }

  /** Whether or not the rounding carries into another digit. */
  lemma ScientificValue(v: real, n: nat, e: int)
    requires v != 0.0 && e == Exponent(Absolute(v)) && 0.0 < Ten(e)
    requires 0.0 <= Absolute(v) / Ten(e) * 1_000_000.0 && n == Rounded(Absolute(v) / Ten(e) * 1_000_000.0)
    ensures ValueOf(Scientific(v)) == Signed(v < 0.0, n) as real * Ten(e - 6)
  {
    hide ValueOf, Scaled10, Exponent, Ten, Rounded;
    MantissaRange(Absolute(v));
    if n == 10_000_000 {
      ScaledValue(v < 0.0, 1_000_000, e + 1);
      TenPositive(e - 6);
    } else {
      ScaledValue(v < 0.0, n, e);
    }
  }

  lemma ScientificShown(v: real)
    requires v != 0.0
    ensures Absolute(ValueOf(Scientific(v)) - v) <= 0.0000005 * Ten(Exponent(Absolute(v)))
  {
    hide ValueOf, Scientific, Exponent, Ten, Rounded;
    var x := Absolute(v);
    var e := Exponent(x);
    MantissaRange(x);
    var n := Rounded(x / Ten(e) * 1_000_000.0);
    ScientificValue(v, n, e);
    RoundedNear(x / Ten(e) * 1_000_000.0, 0);
    SixTens(e - 6);
    TenPositive(e - 6);
    ProductNear(x, Ten(e), Ten(e - 6), n);
    NegatedProduct(n, Ten(e - 6));
  }

  lemma NegatedProduct(n: nat, u: real)
    ensures Signed(true, n) as real * u == -(n as real * u)
  {
  }

  lemma SixTens(e: int)
    ensures Ten(e + 6) == Ten(e) * 1_000_000.0
  {
    hide Ten;
    TenPositive(e);
    TenPositive(e + 1);
    TenPositive(e + 2);
    TenPositive(e + 3);
    TenPositive(e + 4);
    TenPositive(e + 5);
  }

  lemma ProductNear(x: real, t: real, u: real, n: nat)
    requires 0.0 < u && t == u * 1_000_000.0 && -0.5 <= n as real - x / t * 1_000_000.0 <= 0.5
    ensures Absolute(n as real * u - x) <= 0.0000005 * t
  {
    var m := x / t;
    assert m * t == x;
    Distance(n as real, m * 1_000_000.0, u);
    assert m * 1_000_000.0 * u == m * t;
  }

  lemma Distance(a: real, b: real, u: real)
    requires 0.0 < u && -0.5 <= a - b <= 0.5
    ensures -0.5 * u <= a * u - b * u <= 0.5 * u
  {
    ProductLess(a - b, 0.5, u);
    ProductLess(-0.5, a - b, u);
    assert (a - b) * u == a * u - b * u;
  }

  /** What is printed of a number up to 10^9 is no further from it than half of a millionth. */
  lemma ShownNear(v: real)
    requires Absolute(v) <= 1_000_000_000.0
    ensures Absolute(Shown(v) - v) <= 0.0000005
  {
    hide ValueOf, Integer, Fixed, Scientific, Exponent, Ten, Rounded;
    if v == 0.0 {
      IntegerValue(0);
    } else if PrintsAsInteger(v) {
      IntegerValue(Truncated(v));
    } else if PrintsAsWhole(v) {
      WholeShown(v);
    } else if PrintsScientific(v) {
      ScientificShown(v);
      ExponentRange(Absolute(v));
      assert 0.0000005 * Ten(Exponent(Absolute(v))) <= 0.0000005;
    } else {
      FixedShown(v);
    }
  }

  /** Of a larger one, and of one so small that it is not printed as 0 or with six decimals, no further than half of a
      millionth of it. */
  lemma ShownRelative(v: real)
    requires Absolute(v) > 1_000_000_000.0 || EPSILON < Absolute(v) < 0.000001
    ensures Absolute(Shown(v) - v) <= 0.0000005 * Absolute(v)
  {
    hide ValueOf, Integer, Fixed, Scientific, Exponent, Ten, Rounded;
    if PrintsAsInteger(v) {
      IntegerValue(Truncated(v));
    } else if PrintsAsWhole(v) {
      WholeShown(v);
    } else {
      ScientificShown(v);
      ExponentRange(Absolute(v));
    }
  }

  /** And of any, no further than the larger of the two. */
  lemma ShownWithin(v: real)
    ensures Absolute(Shown(v) - v) <= 0.0000005 * (if Absolute(v) < 1.0 then 1.0 else Absolute(v))
  {
    hide Shown;
    if Absolute(v) <= 1_000_000_000.0 {
      ShownNear(v);
    } else {
      ShownRelative(v);
    }
  }

  // ---- what is shown of a double is one ----

  lemma ScientificFinite(v: real)
    requires IsFinite(v) && v != 0.0 && !PrintsAsInteger(v)
    ensures IsFinite(ValueOf(Scientific(v)))
  {
    hide ValueOf, Scientific, Exponent, Ten, Rounded, PrintsAsInteger;
    var x := Absolute(v);
    var e := Exponent(x);
    MantissaRange(x);
    ExponentRange(x);
    ScientificExponent(v);
    var n := Rounded(x / Ten(e) * 1_000_000.0);
    ScientificValue(v, n, e);
    SixTens(e - 6);
    TenPositive(e - 6);
    NegatedProduct(n, Ten(e - 6));
    if e == LARGEST_POWER {
      MantissaAtMost(x, Ten(e));
      MillionFold(n, 1.8, Ten(e - 6), Ten(e));
    } else {
      MillionFold(n, 10.0, Ten(e - 6), Ten(e));
      TenPositive(e);
      TenMonotone(e + 1, LARGEST_POWER);
    }
  }

  lemma MillionFold(n: nat, limit: real, u: real, t: real)
    requires n as real <= limit * 1_000_000.0 && 0.0 < u && t == u * 1_000_000.0
    ensures 0.0 <= n as real * u <= limit * t
  {
    ProductLess(n as real, limit * 1_000_000.0, u);
    assert limit * 1_000_000.0 * u == limit * t;
    ProductLess(0.0, n as real, u);
  }

  lemma MantissaAtMost(x: real, t: real)
    requires 0.0 < t && 0.0 <= x <= 1.8 * t
    ensures 0.0 <= x / t * 1_000_000.0 && Rounded(x / t * 1_000_000.0) <= 1_800_000
  {
    var m := x / t;
    assert m * t == x;
    if m > 1.8 {
      ProductLess(1.8, m, t);
    }
    if m < 0.0 {
      ProductLess(m, 0.0, t);
    }
    assert Rounded(m * 1_000_000.0) <= 1_800_000;
  }

  /** So a tree that is shown can be shown again. */
  lemma ShownFinite(v: real)
    requires IsFinite(v)
    ensures IsFinite(Shown(v))
  {
    hide ValueOf, Integer, Fixed, Scientific, Exponent, Ten, Rounded;
    LargeEnough();
    if v == 0.0 {
      IntegerValue(0);
    } else if PrintsAsInteger(v) {
      IntegerValue(Truncated(v));
    } else if PrintsAsWhole(v) {
      WholeShown(v);
    } else if PrintsScientific(v) {
      ScientificFinite(v);
    } else {
      FixedShown(v);
    }
  }

  lemma LargeEnough()
    ensures Ten(60) + 1.0 <= Ten(LARGEST_POWER) && LLONG_LIMIT <= Ten(LARGEST_POWER)
    ensures 1_000_000_001.0 <= Ten(LARGEST_POWER)
  {
    hide Ten, Pow;
    TenIsPow(20);
    Powers();
    TenMonotone(20, 60);
    TenPositive(60);
    TenMonotone(61, LARGEST_POWER);
  }
}
