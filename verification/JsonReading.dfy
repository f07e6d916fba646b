/**
 The parser (cjson.c) reads the grammar of JSON texts: every text of it is read as the tree that it means, to its end,
 or refused if one of its strings denotes no C string.
 */
module JsonReading {
  import opened CText
  import opened Json
  import opened JsonGrammar
  import opened JsonNumber
  import opened JsonParse
  import opened Numerals
  import opened Wrappers

  // ---- strings ----

  /** What is decoded of a body, with what is decoded behind it. */
  function Decoding(t: Option<string>, end: nat): Decoded {
    if t.Some? then Body(t.value, end) else Malformed
  }

  lemma SameDigit(c: char)
    requires IsHexDigit(c)
    ensures IsHex(c) && HexValue(c) == DigitOf(c)
  {
  }

  /** The four digits at i. */
  lemma UnitAt(p: Piece, s: string, i: nat)
    requires p.Unit? && IsPiece(p) && Occurs(s, i, PieceText(p))
    ensures i + 6 <= |s| && s[i] == '\\' && s[i + 1] == 'u' && Hex4(s, i + 2) == UnitOf(p)
    ensures forall k :: i + 2 <= k < i + 6 ==> IsHex(At(s, k))
  {
    var t := PieceText(p);
    OccursIff(s, i, t);
    OccursAt(s, i, t, 0);
    OccursAt(s, i, t, 1);
    forall k | 0 <= k < 4 ensures At(s, i + 2 + k) == p.digits[k] && IsHexDigit(p.digits[k]) {
      assert p.digits[k] in p.digits;
      OccursAt(s, i, t, k + 2);
    }
    SameDigit(p.digits[0]);
    SameDigit(p.digits[1]);
    SameDigit(p.digits[2]);
    SameDigit(p.digits[3]);
  }

  lemma BodySplit(ps: seq<Piece>, s: string, i: nat)
    requires ps != [] && IsBody(ps) && Occurs(s, i, BodyText(ps))
    ensures Occurs(s, i, PieceText(ps[0])) && Occurs(s, i + |PieceText(ps[0])|, BodyText(ps[1..]))
    ensures |BodyText(ps)| == |PieceText(ps[0])| + |BodyText(ps[1..])| && IsBody(ps[1..])
  {
    OccursSplit(s, i, PieceText(ps[0]), BodyText(ps[1..]));
  }

  /** What stands behind a code unit that another does not follow. */
  lemma NoUnitFollows(ps: seq<Piece>, s: string, i: nat)
    requires IsBody(ps) && Occurs(s, i, BodyText(ps)) && At(s, i + |BodyText(ps)|) == '\"'
    requires ps == [] || !ps[0].Unit?
    ensures At(s, i) != '\\' || At(s, i + 1) != 'u'
  {
    if ps != [] {
      BodySplit(ps, s, i);
      OccursAt(s, i, PieceText(ps[0]), 0);
      if ps[0].Short? {
        OccursAt(s, i, PieceText(ps[0]), 1);
      }
    }
  }

  /** An escape of the grammar is read as its code point. */
  lemma PointRead(ps: seq<Piece>, s: string, i: nat, end: nat)
    requires ps != [] && ps[0].Unit? && IsBody(ps) && Occurs(s, i, BodyText(ps))
    requires end == i + |BodyText(ps)| && At(s, end) == '\"'
    ensures UnicodeEscape(s, i + 1, end) ==
            match FirstPoint(ps)
            case None => BadEscape
            case Some((u, n)) => CodePoint(u, i + 6 * n - 1)
  {
    hide Hex4, UnitOf;
    BodySplit(ps, s, i);
    UnitAt(ps[0], s, i);
    if |ps| > 1 && ps[1].Unit? {
      BodySplit(ps[1..], s, i + 6);
      UnitAt(ps[1], s, i + 6);
    } else {
      NoUnitFollows(ps[1..], s, i + 6);
    }
  }

  /** A code unit is passed by the scan for the closing quote. */
  lemma UnitPassed(p: Piece, s: string, i: nat)
    requires p.Unit? && IsPiece(p) && Occurs(s, i, PieceText(p))
    ensures StringEnd(s, i) == StringEnd(s, i + 6)
  {
    UnitAt(p, s, i);
    HexStaysInside(s, i + 2, 4);
  }

  lemma SameEncoding(u: nat)
    requires 0 < u < 0x11_0000
    ensures Encoded(u) == Utf8(u)
  {
    assert u / 64 / 64 == u / 4096;
  }

  lemma PlainRead(p: Piece, s: string, i: nat, end: nat)
    requires !p.Unit? && IsPiece(p) && Occurs(s, i, PieceText(p)) && i < end
    ensures StringEnd(s, i) == StringEnd(s, i + |PieceText(p)|)
    ensures Decode(s, i, end) ==
            Prepend([if p.Plain? then p.c else Letter(p.letter)], Decode(s, i + |PieceText(p)|, end))
  {
    hide Prepend;
    OccursAt(s, i, PieceText(p), 0);
    if p.Short? {
      OccursAt(s, i, PieceText(p), 1);
    }
  }

  lemma {:induction false} BodyRead(ps: seq<Piece>, s: string, i: nat, end: nat)
    requires IsBody(ps) && Occurs(s, i, BodyText(ps)) && end == i + |BodyText(ps)| && At(s, end) == '\"'
    ensures StringEnd(s, i) == end
    ensures Decode(s, i, end) == Decoding(Denoted(ps), end)
    decreases |ps|
  {
    hide UnicodeEscape, FirstPoint, Encoded, Utf8, Letter, StringEnd, Occurs, IsPiece;
    if ps == [] {
      EndOfBody(s, end);
    } else {
      BodySplit(ps, s, i);
      if ps[0].Unit? {
        UnitRead(ps, s, i, end);
      } else {
        PlainRead(ps[0], s, i, end);
        BodyRead(ps[1..], s, i + |PieceText(ps[0])|, end);
      }
    }
  }

  lemma EndOfBody(s: string, end: nat)
    requires At(s, end) == '\"'
    ensures StringEnd(s, end) == end
  {
  }

  lemma {:induction false} UnitRead(ps: seq<Piece>, s: string, i: nat, end: nat)
    requires ps != [] && ps[0].Unit?
    requires IsBody(ps) && Occurs(s, i, BodyText(ps)) && end == i + |BodyText(ps)| && At(s, end) == '\"'
    ensures StringEnd(s, i) == end
    ensures Decode(s, i, end) == Decoding(Denoted(ps), end)
    decreases |ps|, 0
  {
    hide UnicodeEscape, Encoded, Utf8, StringEnd, Occurs, UnitOf, Hex4;
    BodySplit(ps, s, i);
    UnitAt(ps[0], s, i);
    UnitPassed(ps[0], s, i);
    PointRead(ps, s, i, end);
    var first := FirstPoint(ps);
    BodyRead(ps[1..], s, i + 6, end);
    if first.Some? {
      SameEncoding(first.value.0);
      if first.value.1 == 2 {
        BodySplit(ps[1..], s, i + 6);
        assert ps[1..][1..] == ps[2..];
        BodyRead(ps[2..], s, i + 12, end);
      }
    }
  }

  /** A string of the grammar is read as what it denotes, to its closing quote, or refused if it denotes no C string. */
  lemma StringRead(ps: seq<Piece>, s: string, i: nat)
    requires IsBody(ps) && Occurs(s, i, StringText(ps))
    ensures At(s, i) == '\"'
    ensures ParsedString(s, i) ==
            match Denoted(ps)
            case None => Fail(i)
            case Some(t) => Done(String(t), i + |StringText(ps)|)
  {
    hide Decode, BodyText, Denoted;
    var body := BodyText(ps);
    var end := i + 1 + |body|;
    OccursSplit(s, i, "\"" + body, "\"");
    OccursSplit(s, i, "\"", body);
    BodyRead(ps, s, i + 1, end);
  }

  // ---- white space ----

  lemma {:induction false} SpaceSkipped(t: string, s: string, i: nat)
    requires IsSpace(t) && Occurs(s, i, t)
    ensures Skip(s, i) == Skip(s, i + |t|)
    decreases |t|
  {
    if t != "" {
      assert t[0] in t && forall c <- t[1..] :: c in t;
      SpaceSkipped(t[1..], s, i + 1);
    }
  }

  /** Behind a value: white space, and what may follow it. */
  lemma SpaceEnds(t: string, s: string, i: nat)
    requires IsSpace(t) && Occurs(s, i, t) && At(s, i + |t|) in [',', ']', '}', 0 as char]
    ensures NumberEnds(s, i) && Skip(s, i) == i + |t|
  {
    SpaceSkipped(t, s, i);
    if t != "" {
      OccursAt(s, i, t, 0);
      assert t[0] in t;
    }
  }

  /** White space and what stands behind it. */
  lemma SpaceThen(t: string, s: string, i: nat)
    requires IsSpace(t) && Occurs(s, i, t) && !(0 as char < At(s, i + |t|) <= 32 as char)
    ensures Skip(s, i) == i + |t|
  {
    SpaceSkipped(t, s, i);
  }

  // ---- values ----

  /** What is read of a value. */
  predicate ReadAs(r: Parse, tree: Option<Json>, end: nat) {
    if tree.Some? then r == Done(tree.value, end) else r.Fail?
  }

  predicate ItemsReadAs(r: ParsedItems, trees: Option<seq<Json>>, end: nat) {
    if trees.Some? then r == Items(trees.value, end) else r.ItemsFail?
  }

  predicate MembersReadAs(r: ParsedMembers, trees: Option<seq<Member>>, end: nat) {
    if trees.Some? then r == Members(trees.value, end) else r.MembersFail?
  }

  predicate Alone(d: Doc, s: string, end: nat) {
    d.NumberDoc? ==> NumberEnds(s, end)
  }

  /** The theorem of this module. */
  lemma {:induction false} DocRead(d: Doc, s: string, i: nat)
    requires IsDoc(d) && Occurs(s, i, DocText(d)) && Alone(d, s, i + |DocText(d)|)
    ensures ReadAs(ParsedValue(s, i), Tree(d), i + |DocText(d)|)
    ensures Skip(s, i) == i && At(s, i) != ']'
    decreases d, 0
  {
    hide ParsedNumber, ParsedString, ParsedArray, ParsedObject, ItemTexts, FieldTexts, StringText, NumeralText,
         NumberEnds, ValueOf, Denoted, Trees, MemberTrees;
    match d
    case NullDoc =>
    case FalseDoc =>
    case TrueDoc =>
    case NumberDoc(n) =>
      NumeralParsed(n, s, i);
      NumberValue(s, i);
    case StringDoc(body) =>
      StringRead(body, s, i);
      StringValue(s, i);
    case ArrayDoc(blank, items) =>
      ArrayRead(blank, items, s, i);
      ArrayValue(s, i);
    case ObjectDoc(blank, fields) =>
      ObjectRead(blank, fields, s, i);
      ObjectValue(s, i);
  }

  // The branches of parse_value are told apart by the first character.

  lemma NumberValue(s: string, i: nat)
    requires At(s, i) == '-' || IsDigit(At(s, i))
    ensures ParsedValue(s, i) == ParsedNumber(s, i)
  {
  }

  lemma StringValue(s: string, i: nat)
    requires At(s, i) == '\"'
    ensures ParsedValue(s, i) == ParsedString(s, i)
  {
  }

  lemma ArrayValue(s: string, i: nat)
    requires At(s, i) == '['
    ensures ParsedValue(s, i) == ParsedArray(s, i)
  {
  }

  lemma ObjectValue(s: string, i: nat)
    requires At(s, i) == '{'
    ensures ParsedValue(s, i) == ParsedObject(s, i)
  {
  }

  // ---- arrays ----

  lemma {:induction false} ArrayRead(blank: string, items: seq<Item>, s: string, i: nat)
    requires IsDoc(ArrayDoc(blank, items)) && Occurs(s, i, DocText(ArrayDoc(blank, items)))
    ensures At(s, i) == '['
    ensures ReadAs(ParsedArray(s, i), Tree(ArrayDoc(blank, items)), i + |DocText(ArrayDoc(blank, items))|)
    decreases items, |items| + 1
  {
    hide ParsedArray, ParsedValue, ParsedList, Skip, Occurs, ItemTexts, Trees;
    var body := if items == [] then blank else ItemTexts(items, 0);
    OccursSplit(s, i, "[" + body, "]");
    OccursSplit(s, i, "[", body);
    OccursHead(s, i, "[");
    OccursHead(s, i + 1 + |body|, "]");
    if items == [] {
      SpaceThen(blank, s, i + 1);
      EmptyArray(s, i);
      assert Trees(items, 0) == Some([]) by {
        NoTrees(items);
      }
    } else {
      ItemsRead(items, 0, s, i + 1);
      ArrayItems(s, i);
    }
  }

  lemma NoTrees(items: seq<Item>)
    requires items == []
    ensures Trees(items, 0) == Some([])
  {
  }

  lemma EmptyArray(s: string, i: nat)
    requires At(s, i) == '[' && At(s, Skip(s, i + 1)) == ']'
    ensures ParsedArray(s, i) == Done(Array([]), Skip(s, i + 1) + 1)
  {
  }

  lemma ArrayItems(s: string, i: nat)
    requires At(s, i) == '[' && At(s, Skip(s, i + 1)) != ']'
    ensures var list := ParsedList(s, i + 1);
            ParsedArray(s, i) == if list.Items? then Done(Array(list.items), list.end) else Fail(list.ep)
  {
    hide ParsedValue, ParsedListRest;
    SkipTwice(s, i + 1);
  }

  lemma {:induction false} SkipTwice(s: string, i: nat)
    ensures Skip(s, Skip(s, i)) == Skip(s, i)
    decreases Left(s, i)
  {
    if 0 as char < At(s, i) <= 32 as char {
      SkipTwice(s, i + 1);
    }
  }

  lemma {:induction false} ItemsRead(items: seq<Item>, k: nat, s: string, i: nat)
    requires k < |items| && forall x <- items :: IsSpace(x.before) && IsDoc(x.value) && IsSpace(x.after)
    requires Occurs(s, i, ItemTexts(items, k)) && At(s, i + |ItemTexts(items, k)|) == ']'
    ensures ItemsReadAs(ParsedList(s, i), Trees(items, k), i + |ItemTexts(items, k)| + 1)
    ensures At(s, Skip(s, i)) != ']'
    decreases items, |items| - k
  {
    hide ParsedValue, ParsedList, ParsedListRest, DocText, Skip, Occurs, IsSpace, IsDoc, NumberEnds, Tree;
    var x := items[k];
    assert x in items;
    var text, rest := DocText(x.value), if k + 1 < |items| then "," + ItemTexts(items, k + 1) else "";
    OccursSplit(s, i, x.before + text + x.after, rest);
    OccursSplit(s, i, x.before + text, x.after);
    OccursSplit(s, i, x.before, text);
    var v := i + |x.before|;
    var next := v + |text| + |x.after|;
    if k + 1 < |items| {
      OccursSplit(s, next, ",", ItemTexts(items, k + 1));
      OccursHead(s, next, ",");
      ItemsRead(items, k + 1, s, next + 1);
    }
    SpaceEnds(x.after, s, v + |text|);
    DocRead(x.value, s, v);
    SpaceSkipped(x.before, s, i);
    ListStep(s, i, v, next);
  }

  /** An item that stands at v. */
  lemma ListStep(s: string, i: nat, v: nat, next: nat)
    requires Skip(s, i) == v && At(s, next) in [',', ']']
    requires ParsedValue(s, v).Done? ==> Skip(s, ParsedValue(s, v).end) == next
    ensures match ParsedValue(s, v)
            case Fail(ep) => ParsedList(s, i) == ItemsFail(ep)
            case Done(item, _) =>
              ParsedList(s, i) ==
                After([item], if At(s, next) == ',' then ParsedList(s, next + 1) else Items([], next + 1))
  {
    hide ParsedValue, Skip;
  }

  // ---- objects ----

  lemma {:induction false} ObjectRead(blank: string, fields: seq<Field>, s: string, i: nat)
    requires IsDoc(ObjectDoc(blank, fields)) && Occurs(s, i, DocText(ObjectDoc(blank, fields)))
    ensures At(s, i) == '{'
    ensures ReadAs(ParsedObject(s, i), Tree(ObjectDoc(blank, fields)), i + |DocText(ObjectDoc(blank, fields))|)
    decreases fields, |fields| + 1
  {
    hide ParsedObject, ParsedValue, ParsedMemberList, Skip, Occurs, FieldTexts, MemberTrees;
    var body := if fields == [] then blank else FieldTexts(fields, 0);
    OccursSplit(s, i, "{" + body, "}");
    OccursSplit(s, i, "{", body);
    OccursHead(s, i, "{");
    OccursHead(s, i + 1 + |body|, "}");
    if fields == [] {
      SpaceThen(blank, s, i + 1);
      EmptyObject(s, i);
      assert MemberTrees(fields, 0) == Some([]) by {
        NoMemberTrees(fields);
      }
    } else {
      FieldsRead(fields, 0, s, i + 1);
      ObjectMembers(s, i);
    }
  }

  lemma NoMemberTrees(fields: seq<Field>)
    requires fields == []
    ensures MemberTrees(fields, 0) == Some([])
  {
  }

  lemma EmptyObject(s: string, i: nat)
    requires At(s, i) == '{' && At(s, Skip(s, i + 1)) == '}'
    ensures ParsedObject(s, i) == Done(Object([]), Skip(s, i + 1) + 1)
  {
  }

  lemma ObjectMembers(s: string, i: nat)
    requires At(s, i) == '{' && At(s, Skip(s, i + 1)) != '}'
    ensures var list := ParsedMemberList(s, i + 1);
            ParsedObject(s, i) == if list.Members? then Done(Object(list.members), list.end) else Fail(list.ep)
  {
    hide ParsedValue, ParsedString, ParsedMemberRest;
    SkipTwice(s, i + 1);
  }

  lemma {:induction false} FieldsRead(fields: seq<Field>, k: nat, s: string, i: nat)
    requires k < |fields|
    requires forall x <- fields ::
               && IsSpace(x.before) && IsBody(x.name) && IsSpace(x.mid) && IsSpace(x.gap)
               && IsDoc(x.value) && IsSpace(x.after)
    requires Occurs(s, i, FieldTexts(fields, k)) && At(s, i + |FieldTexts(fields, k)|) == '}'
    ensures MembersReadAs(ParsedMemberList(s, i), MemberTrees(fields, k), i + |FieldTexts(fields, k)| + 1)
    ensures At(s, Skip(s, i)) == '\"'
    decreases fields, |fields| - k
  {
    hide ParsedValue, ParsedString, ParsedMemberList, ParsedMemberRest, DocText, StringText, Skip, Occurs, IsSpace,
         IsBody, IsDoc, NumberEnds, Tree, Denoted;
    var x := fields[k];
    assert x in fields;
    var name, text := StringText(x.name), DocText(x.value);
    var rest := if k + 1 < |fields| then "," + FieldTexts(fields, k + 1) else "";
    var head := x.before + name + x.mid + ":" + x.gap;
    OccursSplit(s, i, head + text + x.after, rest);
    OccursSplit(s, i, head + text, x.after);
    OccursSplit(s, i, head, text);
    var v := i + |head|;
    var next := v + |text| + |x.after|;
    if k + 1 < |fields| {
      OccursSplit(s, next, ",", FieldTexts(fields, k + 1));
      OccursHead(s, next, ",");
      FieldsRead(fields, k + 1, s, next + 1);
    }
    SpaceEnds(x.after, s, v + |text|);
    DocRead(x.value, s, v);
    HeadRead(x, s, i);
    MembersStep(s, i, v, next);
  }

  /** The name of a member, its colon, and where its value stands. */
  lemma HeadRead(x: Field, s: string, i: nat)
    requires IsSpace(x.before) && IsBody(x.name) && IsSpace(x.mid) && IsSpace(x.gap)
    requires Occurs(s, i, x.before + StringText(x.name) + x.mid + ":" + x.gap)
    requires var v := i + |x.before + StringText(x.name) + x.mid + ":" + x.gap|; Skip(s, v) == v
    ensures At(s, Skip(s, i)) == '\"'
    ensures var v := i + |x.before + StringText(x.name) + x.mid + ":" + x.gap|;
            match Denoted(x.name)
            case None => ParsedString(s, Skip(s, i)).Fail?
            case Some(name) =>
              var r := ParsedString(s, Skip(s, i));
              r.Done? && r.item == String(name) && At(s, Skip(s, r.end)) == ':' && Skip(s, Skip(s, r.end) + 1) == v
  {
    hide ParsedString, StringText, Denoted;
    var name := StringText(x.name);
    OccursSplit(s, i, x.before + name + x.mid + ":", x.gap);
    OccursSplit(s, i, x.before + name + x.mid, ":");
    OccursSplit(s, i, x.before + name, x.mid);
    OccursSplit(s, i, x.before, name);
    var q := i + |x.before|;
    var colon := q + |name| + |x.mid|;
    StringRead(x.name, s, q);
    OccursHead(s, colon, ":");
    SpaceThen(x.before, s, i);
    SpaceThen(x.mid, s, q + |name|);
    SpaceSkipped(x.gap, s, colon + 1);
  }

  /** A member whose value stands at v. */
  lemma MembersStep(s: string, i: nat, v: nat, next: nat)
    requires At(s, next) in [',', '}']
    requires ParsedString(s, Skip(s, i)).Done? ==>
               var r := ParsedString(s, Skip(s, i));
               At(s, Skip(s, r.end)) == ':' && Skip(s, Skip(s, r.end) + 1) == v
    requires ParsedValue(s, v).Done? ==> Skip(s, ParsedValue(s, v).end) == next
    ensures var name := ParsedString(s, Skip(s, i));
            match (name, ParsedValue(s, v))
            case (Done(_, _), Done(value, _)) =>
              ParsedMemberList(s, i) ==
                AfterMembers([Member(name.item.str, value)],
                             if At(s, next) == ',' then ParsedMemberList(s, next + 1) else Members([], next + 1))
            case _ => ParsedMemberList(s, i).MembersFail?
  {
    hide ParsedValue, ParsedString, Skip;
  }

  // ---- whole texts ----

  /** A document with white space around it. */
  lemma TextRead(before: string, d: Doc, after: string, requireEnd: bool)
    requires IsSpace(before) && IsDoc(d) && IsSpace(after)
    ensures var s := before + DocText(d) + after;
            ReadAs(ParsedText(s, requireEnd), Tree(d), if requireEnd then |s| else |before| + |DocText(d)|)
  {
    hide ParsedValue, DocText, Tree, IsSpace, Skip, NumberEnds;
    var s := before + DocText(d) + after;
    OccursIff(s, 0, s);
    OccursSplit(s, 0, before + DocText(d), after);
    OccursSplit(s, 0, before, DocText(d));
    SpaceEnds(after, s, |before| + |DocText(d)|);
    DocRead(d, s, |before|);
    SpaceSkipped(before, s, 0);
  }
}
