/**
 Facts about printed text that both printers and the minifier rely on.
 */
module JsonText {
  import opened CText
  import opened Json
  import opened Numerals

  lemma JoinedIsCString(a: string, b: string)
    requires IsCString(a) && IsCString(b)
    ensures IsCString(a + b)
  {
  }

  lemma EscapeIsCString(c: char)
    requires 0 as char < c < 256 as char
    ensures IsCString(Escape(c))
  {
  }

  lemma {:induction false} EscapedIsCString(str: string, k: nat)
    requires k <= |str| && IsCString(str)
    ensures IsCString(Escaped(str, k))
    decreases |str| - k
  {
    hide Escape;
    if k < |str| {
      assert str[k] in str;
      EscapeIsCString(str[k]);
      EscapedIsCString(str, k + 1);
    }
  }

  lemma QuotedIsCString(str: string)
    requires IsCString(str)
    ensures IsCString(Quoted(str))
  {
    hide Escaped;
    EscapedIsCString(str, 0);
  }

  lemma DigitsAreCString(t: string)
    requires AllDigits(t)
    ensures IsCString(t)
  {
  }

  lemma NumeralIsCString(n: Numeral)
    requires IsNumeral(n)
    ensures IsCString(NumeralText(n))
  {
    DigitsAreCString(n.whole);
    DigitsAreCString(n.fraction);
    DigitsAreCString(n.exponent);
    assert IsCString(FractionText(n)) && IsCString(ExponentText(n));
    hide FractionText, ExponentText, IsCString;
    JoinedIsCString(FractionText(n), ExponentText(n));
    JoinedIsCString(n.whole, FractionText(n) + ExponentText(n));
    MinusIsCString();
    JoinedIsCString(if n.negative then "-" else "", n.whole + (FractionText(n) + ExponentText(n)));
  }

  lemma MinusIsCString()
    ensures IsCString("-") && IsCString("")
  {
  }

  /** Printed text has no NUL inside. */
  lemma {:induction false} TextIsCString(j: Json, depth: nat, fmt: bool)
    requires Printable(j)
    ensures IsCString(Text(j, depth, fmt))
    decreases j, 0
  {
    hide Quoted, NumeralText, NumeralFor, ItemsText, MembersText;
    match j
    case Number(v) => NumeralIsCString(NumeralFor(v));
    case String(str) => QuotedIsCString(str);
    case Array(items) => ItemsAreCString(items, 0, depth + 1, fmt);
    case Object(members) => MembersAreCString(members, 0, depth + 1, fmt);
    case _ =>
  }

  lemma {:induction false} ItemsAreCString(items: seq<Json>, k: nat, depth: nat, fmt: bool)
    requires k <= |items| && forall item <- items :: Printable(item)
    ensures IsCString(ItemsText(items, k, depth, fmt))
    decreases items, |items| - k
  {
    hide Text, Printable;
    if k < |items| {
      assert items[k] in items;
      TextIsCString(items[k], depth, fmt);
      ItemsAreCString(items, k + 1, depth, fmt);
    }
  }

  lemma HeadIsCString(name: string, depth: nat, fmt: bool)
    requires IsCString(name)
    ensures IsCString(MemberHead(name, depth, fmt))
  {
    hide Quoted;
    QuotedIsCString(name);
  }

  lemma {:induction false} MembersAreCString(members: seq<Member>, k: nat, depth: nat, fmt: bool)
    requires k <= |members| && forall m <- members :: IsCString(m.name) && Printable(m.value)
    ensures IsCString(MembersText(members, k, depth, fmt))
    decreases members, |members| - k
  {
    hide Text, Printable, MemberHead;
    if k < |members| {
      assert members[k] in members;
      HeadIsCString(members[k].name, depth, fmt);
      TextIsCString(members[k].value, depth, fmt);
      MembersAreCString(members, k + 1, depth, fmt);
    }
  }

  lemma EmptyItems(items: seq<Json>, depth: nat, fmt: bool)
    ensures items == [] ==> ItemsText(items, 0, depth, fmt) == ""
  {
  }

  /** A string without characters to escape is printed as it is. */
  lemma {:induction false} PlainIsEscaped(str: string, k: nat)
    requires k <= |str| && forall c <- str :: !NeedsEscape(c)
    ensures Escaped(str, k) == str[k..]
    decreases |str| - k
  {
    if k < |str| {
      assert str[k] in str;
      PlainIsEscaped(str, k + 1);
    }
  }
}
