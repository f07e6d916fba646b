/**
 Parsing undoes printing.  What is printed of a tree, formatted or not and at any depth, is a text of the JSON grammar
 that means the tree with its numbers as they are shown; so parse_value reads it back, and stops exactly behind it.
 */
module JsonRoundTrip {
  import opened CText
  import opened Json
  import opened Numerals
  import opened JsonGrammar
  import opened JsonNumber
  import opened JsonParse
  import opened JsonReading
  import opened Wrappers

  // ---- strings ----

  /** The pieces that a character is printed as. */
  function PieceOf(c: char): Piece {
    if !NeedsEscape(c) then Plain(c)
    else if |Escape(c)| == 2 then Short(Escape(c)[1])
    else Unit("00" + [HexChar(c as nat / 16 % 16), HexChar(c as nat % 16)])
  }

  function PiecesOf(str: string, k: nat): seq<Piece>
    requires k <= |str|
    decreases |str| - k
  {
    if k == |str| then [] else [PieceOf(str[k])] + PiecesOf(str, k + 1)
  }

  lemma HexRoundTrip(d: nat)
    requires d < 16
    ensures IsHexDigit(HexChar(d)) && DigitOf(HexChar(d)) == d
  {
  }

  /** What is printed of a character is a piece, and denotes the character. */
  lemma PieceRoundTrip(c: char, ps: seq<Piece>)
    requires 0 as char < c < 256 as char && IsBody(ps)
    ensures IsPiece(PieceOf(c)) && PieceText(PieceOf(c)) == Escape(c)
    ensures IsBody([PieceOf(c)] + ps) && Denoted([PieceOf(c)] + ps) == Behind([c], Denoted(ps))
  {
    hide Denoted, Behind;
    assert ([PieceOf(c)] + ps)[1..] == ps;
    if NeedsEscape(c) && |Escape(c)| != 2 {
      ControlRoundTrip(c, ps);
    } else {
      DenotedFirst([PieceOf(c)] + ps);
    }
  }

  lemma DenotedFirst(ps: seq<Piece>)
    requires ps != [] && IsBody(ps) && !ps[0].Unit?
    ensures Denoted(ps) == Behind([if ps[0].Plain? then ps[0].c else Letter(ps[0].letter)], Denoted(ps[1..]))
  {
  }

  /** A control character without a letter of its own. */
  lemma ControlRoundTrip(c: char, ps: seq<Piece>)
    requires 0 as char < c < 32 as char && |Escape(c)| != 2 && IsBody(ps)
    ensures IsPiece(PieceOf(c)) && PieceText(PieceOf(c)) == Escape(c)
    ensures IsBody([PieceOf(c)] + ps) && Denoted([PieceOf(c)] + ps) == Behind([c], Denoted(ps))
  {
    hide Behind;
    HexRoundTrip(c as nat / 16);
    HexRoundTrip(c as nat % 16);
    var p := PieceOf(c);
    assert UnitOf(p) == c as nat;
    assert ([p] + ps)[1..] == ps;
    assert FirstPoint([p] + ps) == Some((c as nat, 1));
  }

  lemma {:induction false} BodyRoundTrip(str: string, k: nat)
    requires IsCString(str) && k <= |str|
    ensures IsBody(PiecesOf(str, k)) && BodyText(PiecesOf(str, k)) == Escaped(str, k)
    ensures Denoted(PiecesOf(str, k)) == Some(str[k..])
    decreases |str| - k
  {
    hide PieceOf, Escape;
    if k < |str| {
      assert str[k] in str;
      BodyRoundTrip(str, k + 1);
      PieceRoundTrip(str[k], PiecesOf(str, k + 1));
      assert PiecesOf(str, k)[1..] == PiecesOf(str, k + 1);
      assert [str[k]] + str[k + 1..] == str[k..];
    } else {
      assert str[k..] == "";
    }
  }

  lemma StringRoundTrip(str: string, s: string, i: nat)
    requires IsCString(str) && Occurs(s, i, Quoted(str))
    ensures At(s, i) == '\"'
    ensures ParsedString(s, i) == Done(String(str), i + |Quoted(str)|)
  {
    hide ParsedString, Occurs;
    BodyRoundTrip(str, 0);
    StringRead(PiecesOf(str, 0), s, i);
    assert str[0..] == str;
  }

  // ---- values ----

  /** The text that is printed, with its white space. */
  function DocOf(j: Json, depth: nat, fmt: bool): Doc
    decreases j, 0
  {
    match j
    case Null => NullDoc
    case False => FalseDoc
    case True => TrueDoc
    case Number(v) => NumberDoc(NumeralFor(v))
    case String(str) => StringDoc(PiecesOf(str, 0))
    case Array(items) => ArrayDoc("", ItemsOf(items, depth + 1, fmt))
    case Object(members) => ObjectDoc(Line(depth, fmt), FieldsOf(members, depth + 1, fmt))
  }

  function Line(depth: nat, fmt: bool): string {
    if fmt then "\n" + Tabs(depth) else ""
  }

  function ItemsOf(items: seq<Json>, depth: nat, fmt: bool): seq<Item>
    decreases items, 0
  {
    seq(|items|, i requires 0 <= i < |items| =>
      Item(if fmt && i > 0 then " " else "", DocOf(items[i], depth, fmt), ""))
  }

  function FieldsOf(members: seq<Member>, depth: nat, fmt: bool): seq<Field>
    requires 0 < depth
    decreases members, 0
  {
    seq(|members|, i requires 0 <= i < |members| =>
      Field(Line(depth, fmt), PiecesOf(members[i].name, 0), "", if fmt then "\t" else "",
            DocOf(members[i].value, depth, fmt), if i == |members| - 1 then Line(depth - 1, fmt) else ""))
  }

  /** What is printed is in the grammar, and means what the text of the tree conveys. */
  lemma {:induction false} PrintedIsDoc(j: Json, depth: nat, fmt: bool)
    requires Printable(j)
    ensures IsDoc(DocOf(j, depth, fmt)) && DocText(DocOf(j, depth, fmt)) == Text(j, depth, fmt)
    ensures Tree(DocOf(j, depth, fmt)) == Some(Conveyed(j))
    decreases j, 0
  {
    hide NumeralText, NumeralFor, Quoted, ItemsText, MembersText, ConveyedItems, ConveyedMembers, ValueOf, ItemTexts,
         FieldTexts, Trees, MemberTrees, Denoted, BodyText, Escaped, IsBody;
    match j
    case String(str) =>
      BodyRoundTrip(str, 0);
      assert str[0..] == str;
      QuotedIs(str);
    case Array(items) => PrintedArray(items, depth, fmt);
    case Object(members) => PrintedObject(members, depth, fmt);
    case _ =>
  }

  lemma QuotedIs(str: string)
    requires BodyText(PiecesOf(str, 0)) == Escaped(str, 0)
    ensures StringText(PiecesOf(str, 0)) == Quoted(str)
  {
  }

  lemma SpaceOf(depth: nat)
    ensures IsSpace("") && IsSpace(" ") && IsSpace("\t") && IsSpace(Line(depth, true)) && IsSpace(Line(depth, false))
  {
  }

  lemma {:induction false} PrintedArray(items: seq<Json>, depth: nat, fmt: bool)
    requires Printable(Array(items))
    ensures var d := DocOf(Array(items), depth, fmt);
            IsDoc(d) && DocText(d) == Text(Array(items), depth, fmt) && Tree(d) == Some(Conveyed(Array(items)))
    decreases items, |items| + 1
  {
    hide ItemsText, ItemTexts, Trees, ConveyedItems, IsSpace;
    SpaceOf(depth);
    if items == [] {
      NoItems(depth, fmt);
    } else {
      PrintedItems(items, 0, depth + 1, fmt);
    }
  }

  lemma NoItems(depth: nat, fmt: bool)
    ensures ItemsText([], 0, depth + 1, fmt) == "" && Trees([], 0) == Some([]) && ConveyedItems([], 0) == []
    ensures MembersText([], 0, depth + 1, fmt) == "" && MemberTrees([], 0) == Some([]) && ConveyedMembers([], 0) == []
  {
  }

  lemma {:induction false} PrintedItems(items: seq<Json>, k: nat, depth: nat, fmt: bool)
    requires k < |items| && forall item <- items :: Printable(item)
    ensures var xs := ItemsOf(items, depth, fmt);
            && (forall x <- xs :: IsSpace(x.before) && IsDoc(x.value) && IsSpace(x.after))
            && ItemTexts(xs, k) == (if fmt && k > 0 then " " else "") + ItemsText(items, k, depth, fmt)
            && Trees(xs, k) == Some(ConveyedItems(items, k))
    decreases items, |items| - k
  {
    hide DocOf, DocText, Text, Tree, Conveyed, IsSpace, IsDoc, Printable;
    SpaceOf(depth);
    forall i | 0 <= i < |items|
      ensures IsDoc(DocOf(items[i], depth, fmt)) && DocText(DocOf(items[i], depth, fmt)) == Text(items[i], depth, fmt)
      ensures Tree(DocOf(items[i], depth, fmt)) == Some(Conveyed(items[i]))
    {
      assert items[i] in items;
      PrintedIsDoc(items[i], depth, fmt);
    }
    var before, text := if fmt && k > 0 then " " else "", Text(items[k], depth, fmt);
    if k + 1 < |items| {
      PrintedItems(items, k + 1, depth, fmt);
      assert before + text + "" + ("," + ((if fmt then " " else "") + ItemsText(items, k + 1, depth, fmt))) ==
             before + (text + (if fmt then ", " else ",") + ItemsText(items, k + 1, depth, fmt));
    } else {
      assert before + text + "" + "" == before + (text + "" + "");
    }
  }

  lemma {:induction false} PrintedObject(members: seq<Member>, depth: nat, fmt: bool)
    requires Printable(Object(members))
    ensures var d := DocOf(Object(members), depth, fmt);
            IsDoc(d) && DocText(d) == Text(Object(members), depth, fmt) && Tree(d) == Some(Conveyed(Object(members)))
    decreases members, |members| + 1
  {
    hide MembersText, FieldTexts, MemberTrees, ConveyedMembers, IsSpace, IsBody, Tabs, Close, Open, Line;
    SpaceOf(depth);
    if members == [] {
      NoItems(depth, fmt);
      LineClosed(depth, fmt);
      InBraces(Line(depth, fmt), "", depth, fmt);
    } else {
      PrintedMembers(members, 0, depth + 1, fmt);
      InBraces(FieldTexts(FieldsOf(members, depth + 1, fmt), 0), MembersText(members, 0, depth + 1, fmt), depth, fmt);
    }
  }

  lemma LineClosed(depth: nat, fmt: bool)
    ensures Line(depth, fmt) + "}" == (if fmt then "\n" else "") + "" + Close(depth, fmt)
  {
    hide Tabs;
  }

  lemma InBraces(fields: string, texts: string, depth: nat, fmt: bool)
    requires fields + "}" == (if fmt then "\n" else "") + texts + Close(depth, fmt)
    ensures "{" + fields + "}" == Open(fmt) + texts + Close(depth, fmt)
  {
    hide Close;
    assert "{\n" == "{" + "\n";
    assert "{" + fields + "}" == "{" + (fields + "}");
    assert "{" + ((if fmt then "\n" else "") + texts + Close(depth, fmt)) == Open(fmt) + texts + Close(depth, fmt);
  }

  lemma {:induction false} PrintedMembers(members: seq<Member>, k: nat, depth: nat, fmt: bool)
    requires k < |members| && 0 < depth && forall m <- members :: IsCString(m.name) && Printable(m.value)
    ensures var xs := FieldsOf(members, depth, fmt);
            && (forall x <- xs ::
                  && IsSpace(x.before) && IsBody(x.name) && IsSpace(x.mid) && IsSpace(x.gap)
                  && IsDoc(x.value) && IsSpace(x.after))
            && FieldTexts(xs, k) + "}" ==
                 (if fmt then "\n" else "") + MembersText(members, k, depth, fmt) + Close(depth - 1, fmt)
            && MemberTrees(xs, k) == Some(ConveyedMembers(members, k))
    decreases members, |members| - k
  {
    hide DocOf, DocText, Text, Tree, Conveyed, IsSpace, IsDoc, IsBody, Printable, IsCString, Quoted, StringText,
         Denoted, PiecesOf, Tabs;
    SpaceOf(depth);
    SpaceOf(depth - 1);
    forall i | 0 <= i < |members|
      ensures IsDoc(DocOf(members[i].value, depth, fmt))
      ensures DocText(DocOf(members[i].value, depth, fmt)) == Text(members[i].value, depth, fmt)
      ensures Tree(DocOf(members[i].value, depth, fmt)) == Some(Conveyed(members[i].value))
      ensures IsBody(PiecesOf(members[i].name, 0))
      ensures StringText(PiecesOf(members[i].name, 0)) == Quoted(members[i].name)
      ensures Denoted(PiecesOf(members[i].name, 0)) == Some(members[i].name)
    {
      assert members[i] in members;
      PrintedIsDoc(members[i].value, depth, fmt);
      NameIsBody(members[i].name);
    }
    if k + 1 < |members| {
      PrintedMembers(members, k + 1, depth, fmt);
    }
    MemberTexts(members, k, depth, fmt);
  }

  lemma NameIsBody(name: string)
    requires IsCString(name)
    ensures IsBody(PiecesOf(name, 0)) && StringText(PiecesOf(name, 0)) == Quoted(name)
    ensures Denoted(PiecesOf(name, 0)) == Some(name)
  {
    BodyRoundTrip(name, 0);
    QuotedIs(name);
    assert name[0..] == name;
  }

  /** The member k, and those behind it. */
  lemma MemberTexts(members: seq<Member>, k: nat, depth: nat, fmt: bool)
    requires k < |members| && 0 < depth
    requires DocText(DocOf(members[k].value, depth, fmt)) == Text(members[k].value, depth, fmt)
    requires StringText(PiecesOf(members[k].name, 0)) == Quoted(members[k].name)
    requires k + 1 < |members| ==>
               FieldTexts(FieldsOf(members, depth, fmt), k + 1) + "}" ==
                 (if fmt then "\n" else "") + MembersText(members, k + 1, depth, fmt) + Close(depth - 1, fmt)
    ensures FieldTexts(FieldsOf(members, depth, fmt), k) + "}" ==
              (if fmt then "\n" else "") + MembersText(members, k, depth, fmt) + Close(depth - 1, fmt)
  {
    hide DocOf, DocText, Text, Quoted, StringText, PiecesOf, Tabs;
    var name, text := Quoted(members[k].name), Text(members[k].value, depth, fmt);
    var nl, gap, close := if fmt then "\n" else "", if fmt then "\t" else "", Close(depth - 1, fmt);
    var tabs, rest := if fmt then Tabs(depth) else "", MembersText(members, k + 1, depth, fmt);
    assert ":" + gap == if fmt then ":\t" else ":";
    if k + 1 < |members| {
      assert "," + nl == if fmt then ",\n" else ",";
      MemberAndMore(nl, tabs, name, gap, text, FieldTexts(FieldsOf(members, depth, fmt), k + 1), rest, close);
    } else {
      LastMember(nl, tabs, name, gap, text, if fmt then Tabs(depth - 1) else "");
    }
  }

  lemma MemberAndMore(nl: string, tabs: string, name: string, gap: string, text: string, more: string, rest: string,
                      close: string)
    requires more + "}" == nl + rest + close
    ensures nl + tabs + name + "" + ":" + gap + text + "" + ("," + more) + "}" ==
            nl + (tabs + name + (":" + gap) + text + ("," + nl) + rest) + close
  {
    var head := nl + tabs + name + ":" + gap + text;
    assert nl + tabs + name + "" + ":" + gap + text + "" + ("," + more) + "}" == head + "," + (more + "}");
    assert head == nl + (tabs + name + (":" + gap) + text);
    assert nl + (tabs + name + (":" + gap) + text + ("," + nl) + rest) + close == head + "," + (nl + rest + close);
  }

  lemma LastMember(nl: string, tabs: string, name: string, gap: string, text: string, closing: string)
    ensures nl + tabs + name + "" + ":" + gap + text + (nl + closing) + "" + "}" ==
            nl + (tabs + name + (":" + gap) + text + ("" + nl) + "") + (closing + "}")
  {
    var head := nl + tabs + name + ":" + gap + text;
    assert nl + tabs + name + "" + ":" + gap + text + (nl + closing) + "" + "}" == head + nl + closing + "}";
    assert nl + (tabs + name + (":" + gap) + text + ("" + nl) + "") == head + nl;
  }

  // ---- the round trip ----

  predicate Follows(j: Json, s: string, e: nat) {
    j.Number? ==> NumberEnds(s, e)
  }

  /** The theorem of this module, for a text standing anywhere in s. */
  lemma RoundTrip(j: Json, depth: nat, fmt: bool, s: string, i: nat)
    requires Printable(j)
    requires Occurs(s, i, Text(j, depth, fmt)) && Follows(j, s, i + |Text(j, depth, fmt)|)
    ensures ParsedValue(s, i) == Done(Conveyed(j), i + |Text(j, depth, fmt)|)
    ensures Skip(s, i) == i && At(s, i) != ']'
  {
    hide DocText, Text, Tree, Conveyed, ParsedValue, Skip, Occurs, NumberEnds, IsDoc;
    PrintedIsDoc(j, depth, fmt);
    DocRead(DocOf(j, depth, fmt), s, i);
  }

  /** cJSON_Parse of what cJSON_Print or cJSON_PrintUnformatted returned, with or without the check for the end. */
  lemma ParseOfPrint(j: Json, fmt: bool, requireEnd: bool)
    requires Printable(j)
    ensures ParsedText(Text(j, 0, fmt), requireEnd) == Done(Conveyed(j), |Text(j, 0, fmt)|)
  {
    hide DocText, Text, Tree, Conveyed, ParsedText, IsDoc;
    PrintedIsDoc(j, 0, fmt);
    TextRead("", DocOf(j, 0, fmt), "", requireEnd);
    assert "" + Text(j, 0, fmt) + "" == Text(j, 0, fmt);
  }

  /** The text determines the tree, but for the digits that a number loses when it is printed. */
  lemma TextInjective(j: Json, j': Json, fmt: bool)
    requires Printable(j) && Printable(j')
    requires Text(j, 0, fmt) == Text(j', 0, fmt)
    ensures Conveyed(j) == Conveyed(j')
    ensures Exact(j) && Exact(j') ==> j == j'
  {
    ParseOfPrint(j, fmt, false);
    ParseOfPrint(j', fmt, false);
    if Exact(j) && Exact(j') {
      ConveyedExact(j);
      ConveyedExact(j');
    }
  }
}
