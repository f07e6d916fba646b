/**
 cJSON_Minify (cjson.c) on the grammar of JSON texts, with comments wherever white space is allowed: what is left is the
 text without either, which means the same.
 */
module JsonMinifyText {
  import opened CText
  import opened Json
  import opened JsonGrammar
  import opened JsonParse
  import opened JsonReading
  import opened JsonRoundTrip
  import opened Numerals
  import opened Wrappers
  import M = JsonMinify

  // ---- comments ----

  /** From two slashes to the end of the line. */
  predicate IsLineComment(t: string) {
    && |t| >= 3 && t[0] == '/' && t[1] == '/' && t[|t| - 1] == '\n'
    && forall k :: 0 <= k < |t| - 1 ==> t[k] != '\n' && t[k] != 0 as char
  }

  /** From a slash and an asterisk to the first asterisk and slash behind them. */
  predicate IsBlockComment(t: string) {
    && |t| >= 4 && t[0] == '/' && t[1] == '*' && t[|t| - 2] == '*' && t[|t| - 1] == '/'
    && (forall k :: 0 <= k < |t| ==> t[k] != 0 as char)
    && forall k :: 2 <= k < |t| - 2 ==> !(t[k] == '*' && t[k + 1] == '/')
  }

  lemma {:induction false} LineEndAt(s: string, i: nat, e: nat)
    requires i <= e < |s| && s[e] == '\n' && forall k :: i <= k < e ==> s[k] != '\n' && s[k] != 0 as char
    ensures M.LineEnd(s, i) == e
    decreases e - i
  {
    if i < e {
      LineEndAt(s, i + 1, e);
    }
  }

  lemma {:induction false} CommentEndAt(s: string, i: nat, e: nat)
    requires i <= e < |s| - 1 && s[e] == '*' && s[e + 1] == '/'
    requires forall k :: i <= k < e ==> s[k] != 0 as char && !(s[k] == '*' && s[k + 1] == '/')
    ensures M.CommentEnd(s, i) == e
    decreases e - i
  {
    if i < e {
      CommentEndAt(s, i + 1, e);
    }
  }

  lemma LineCommentGone(t: string, s: string, i: nat)
    requires IsLineComment(t) && Occurs(s, i, t)
    ensures M.Minify(s, i) == M.Minify(s, i + |t|)
  {
    hide M.Minify, M.CommentEnd, M.LineEnd;
    OccursIff(s, i, t);
    assert forall k :: i <= k < i + |t| ==> s[k] == s[i..i + |t|][k - i];
    LineEndAt(s, i, i + |t| - 1);
    M.MinifyStep(s, i);
    M.MinifyStep(s, i + |t| - 1);
  }

  /** The asterisk that opens the comment is taken for the one that closes it if a slash follows. */
  lemma BlockCommentGone(t: string, s: string, i: nat)
    requires IsBlockComment(t) && Occurs(s, i, t)
    ensures M.Minify(s, i) == M.Minify(s, i + if t[2] == '/' then 3 else |t|)
  {
    hide M.Minify, M.CommentEnd, M.LineEnd;
    OccursIff(s, i, t);
    assert forall k :: i <= k < i + |t| ==> s[k] == s[i..i + |t|][k - i];
    CommentEndAt(s, i, if t[2] == '/' then i + 1 else i + |t| - 2);
    M.MinifyStep(s, i);
  }

  /** Of this comment its last characters are left. */
  lemma CommentLeft()
    ensures IsBlockComment("/*/0*/") && M.Minify("/*/0*/", 0) == M.Text("0*/")
  {
    hide M.Minify;
    var s := "/*/0*/";
    assert Occurs(s, 0, s) by {
      OccursIff(s, 0, s);
    }
    BlockCommentGone(s, s, 0);
    M.MinifyStep(s, 3);
    M.MinifyStep(s, 4);
    M.MinifyStep(s, 5);
    M.MinifyStep(s, 6);
  }

  /** White space and comments. */
  ghost predicate IsFiller(t: string)
    decreases |t|
  {
    || t == ""
    || (t[0] in [' ', '\t', '\n', '\r'] && IsFiller(t[1..]))
    || exists n: nat :: 0 < n <= |t| && IsCommentOf(t, n) && IsFiller(t[n..])
  }

  /** The first n characters are a comment that is taken for one. */
  ghost predicate IsCommentOf(t: string, n: nat) {
    0 < n <= |t| && (IsLineComment(t[..n]) || (IsBlockComment(t[..n]) && t[2] != '/'))
  }

  lemma CommentGone(t: string, n: nat, s: string, i: nat)
    requires IsCommentOf(t, n) && Occurs(s, i, t[..n])
    ensures M.Minify(s, i) == M.Minify(s, i + n)
  {
    hide M.Minify;
    if IsLineComment(t[..n]) {
      LineCommentGone(t[..n], s, i);
    } else {
      BlockCommentGone(t[..n], s, i);
    }
  }

  lemma {:induction false} FillerGone(t: string, s: string, i: nat)
    requires IsFiller(t) && Occurs(s, i, t)
    ensures M.Minify(s, i) == M.Minify(s, i + |t|)
    decreases |t|
  {
    hide M.Minify, IsCommentOf;
    if t == "" {
    } else if t[0] in [' ', '\t', '\n', '\r'] && IsFiller(t[1..]) {
      OccursHead(s, i, t);
      M.MinifyStep(s, i);
      FillerGone(t[1..], s, i + 1);
    } else {
      var n: nat :| 0 < n <= |t| && IsCommentOf(t, n) && IsFiller(t[n..]);
      assert t == t[..n] + t[n..];
      OccursSplit(s, i, t[..n], t[n..]);
      CommentGone(t, n, s, i);
      FillerGone(t[n..], s, i + n);
    }
  }

  lemma {:induction false} SpaceIsFiller(t: string)
    requires IsSpace(t)
    ensures IsFiller(t)
    decreases |t|
  {
    if t != "" {
      assert t[0] in t && forall c <- t[1..] :: c in t;
      SpaceIsFiller(t[1..]);
    }
  }

  // ---- texts ----

  /** A text of the grammar with comments in its white space. */
  ghost predicate IsCommented(d: Doc)
    decreases d
  {
    match d
    case NumberDoc(n) => IsNumeral(n)
    case StringDoc(body) => IsBody(body)
    case ArrayDoc(blank, items) =>
      IsFiller(blank) && forall x <- items :: IsFiller(x.before) && IsCommented(x.value) && IsFiller(x.after)
    case ObjectDoc(blank, fields) =>
      IsFiller(blank) &&
      forall x <- fields ::
        && IsFiller(x.before) && IsBody(x.name) && IsFiller(x.mid) && IsFiller(x.gap)
        && IsCommented(x.value) && IsFiller(x.after)
    case _ => true
  }

  /** The text without white space and comments. */
  function Compact(d: Doc): Doc
    decreases d, 0
  {
    match d
    case ArrayDoc(_, items) => ArrayDoc("", CompactItems(items))
    case ObjectDoc(_, fields) => ObjectDoc("", CompactFields(fields))
    case _ => d
  }

  function CompactItems(items: seq<Item>): seq<Item>
    decreases items, 0
  {
    seq(|items|, k requires 0 <= k < |items| => Item("", Compact(items[k].value), ""))
  }

  function CompactFields(fields: seq<Field>): seq<Field>
    decreases fields, 0
  {
    seq(|fields|, k requires 0 <= k < |fields| =>
      Field("", fields[k].name, "", "", Compact(fields[k].value), ""))
  }

  /** The theorem of this module, for a text standing anywhere in s. */
  lemma {:induction false} MinifyDoc(d: Doc, s: string, i: nat)
    requires IsCommented(d) && Occurs(s, i, DocText(d))
    ensures M.Minify(s, i) == M.Before(DocText(Compact(d)), M.Minify(s, i + |DocText(d)|))
    decreases d, 0
  {
    hide M.Minify, NumeralText, StringText, ItemTexts, FieldTexts, Occurs, IsFiller;
    match d
    case NullDoc => M.KeptText("null", s, i);
    case FalseDoc => M.KeptText("false", s, i);
    case TrueDoc => M.KeptText("true", s, i);
    case NumberDoc(n) =>
      NumeralKept(n);
      M.KeptText(NumeralText(n), s, i);
    case StringDoc(body) => StringKept(body, s, i);
    case ArrayDoc(blank, items) => MinifyArray(blank, items, s, i);
    case ObjectDoc(blank, fields) => MinifyObject(blank, fields, s, i);
  }

  lemma StringKept(ps: seq<Piece>, s: string, i: nat)
    requires IsBody(ps) && Occurs(s, i, StringText(ps))
    ensures M.Minify(s, i) == M.Before(StringText(ps), M.Minify(s, i + |StringText(ps)|))
  {
    hide Occurs, M.Minify, M.LineEnd, M.CommentEnd, StringEnd, BodyText, Decode, Denoted;
    var body := BodyText(ps);
    var end := i + 1 + |body|;
    OccursIff(s, i, StringText(ps));
    OccursSplit(s, i, "\"" + body, "\"");
    OccursSplit(s, i, "\"", body);
    OccursHead(s, i, "\"");
    OccursHead(s, end, "\"");
    BodyRead(ps, s, i + 1, end);
    M.MinifyStep(s, i);
    assert s[i..end + 1] == StringText(ps);
  }

  lemma NumeralKept(n: Numeral)
    requires IsNumeral(n)
    ensures forall c <- NumeralText(n) :: M.IsKept(c)
  {
    hide M.IsKept;
    DigitsKept(n.whole);
    DigitsKept(n.fraction);
    DigitsKept(n.exponent);
    MarksKept();
    assert forall c <- FractionText(n) :: M.IsKept(c);
    assert forall c <- ExponentText(n) :: M.IsKept(c);
  }

  lemma MarksKept()
    ensures M.IsKept('-') && M.IsKept('+') && M.IsKept('.') && M.IsKept('e') && M.IsKept('E')
  {
  }

  lemma DigitsKept(t: string)
    requires AllDigits(t)
    ensures forall c <- t :: M.IsKept(c)
  {
  }

  /** A kept character in front of what is left of the rest. */
  lemma Keep(c: char, t: string, t': string, s: string, i: nat)
    requires M.IsKept(c) && At(s, i) == c
    requires M.Minify(s, i + 1) == M.Before(t', M.Minify(s, i + 1 + |t|))
    ensures M.Minify(s, i) == M.Before([c] + t', M.Minify(s, i + 1 + |t|))
  {
    hide M.Minify, M.LineEnd, M.CommentEnd;
    M.MinifyStep(s, i);
    M.BeforeTwice([c], t', M.Minify(s, i + 1 + |t|));
  }

  /** A bracket behind a text. */
  lemma KeepLast(c: char, t: string, t': string, s: string, i: nat)
    requires M.IsKept(c) && At(s, i + |t|) == c
    requires M.Minify(s, i) == M.Before(t', M.Minify(s, i + |t|))
    ensures M.Minify(s, i) == M.Before(t' + [c], M.Minify(s, i + |t| + 1))
  {
    hide M.Minify, M.LineEnd, M.CommentEnd;
    M.MinifyStep(s, i + |t|);
    M.BeforeTwice(t', [c], M.Minify(s, i + |t| + 1));
  }

  lemma BeforeNothing(rest: M.Minified)
    ensures M.Before("", rest) == rest
  {
  }

  lemma {:induction false} MinifyArray(blank: string, items: seq<Item>, s: string, i: nat)
    requires IsCommented(ArrayDoc(blank, items)) && Occurs(s, i, DocText(ArrayDoc(blank, items)))
    ensures M.Minify(s, i) ==
            M.Before(DocText(Compact(ArrayDoc(blank, items))), M.Minify(s, i + |DocText(ArrayDoc(blank, items))|))
    decreases items, |items| + 1
  {
    hide M.Minify, ItemTexts, Occurs, IsFiller, M.Before;
    var body, body' := if items == [] then blank else ItemTexts(items, 0), "";
    OccursSplit(s, i, "[" + body, "]");
    OccursSplit(s, i, "[", body);
    OccursHead(s, i, "[");
    OccursHead(s, i + 1 + |body|, "]");
    if items == [] {
      FillerGone(blank, s, i + 1);
      BeforeNothing(M.Minify(s, i + 1));
    } else {
      MinifyItems(items, 0, s, i + 1);
      body' := ItemTexts(CompactItems(items), 0);
    }
    KeepLast(']', body, body', s, i + 1);
    Keep('[', body + "]", body' + "]", s, i);
    assert "[" + (body' + "]") == "[" + body' + "]";
  }

  lemma {:induction false} MinifyItems(items: seq<Item>, k: nat, s: string, i: nat)
    requires k < |items| && forall x <- items :: IsFiller(x.before) && IsCommented(x.value) && IsFiller(x.after)
    requires Occurs(s, i, ItemTexts(items, k))
    ensures M.Minify(s, i) ==
            M.Before(ItemTexts(CompactItems(items), k), M.Minify(s, i + |ItemTexts(items, k)|))
    decreases items, |items| - k
  {
    hide M.Minify, M.Before, DocText, Compact, Occurs, IsFiller, IsCommented;
    var x := items[k];
    assert x in items;
    var text, text' := DocText(x.value), DocText(Compact(x.value));
    var rest := if k + 1 < |items| then "," + ItemTexts(items, k + 1) else "";
    OccursSplit(s, i, x.before + text + x.after, rest);
    OccursSplit(s, i, x.before + text, x.after);
    OccursSplit(s, i, x.before, text);
    var v := i + |x.before|;
    var next := v + |text| + |x.after|;
    FillerGone(x.before, s, i);
    MinifyDoc(x.value, s, v);
    FillerGone(x.after, s, v + |text|);
    if k + 1 < |items| {
      OccursSplit(s, next, ",", ItemTexts(items, k + 1));
      OccursHead(s, next, ",");
      MinifyItems(items, k + 1, s, next + 1);
      var rest' := ItemTexts(CompactItems(items), k + 1);
      Keep(',', ItemTexts(items, k + 1), rest', s, next);
      M.BeforeTwice(text', "," + rest', M.Minify(s, next + |rest|));
      assert "" + text' + "" + ("," + rest') == text' + ("," + rest');
    } else {
      assert "" + text' + "" + "" == text';
    }
  }

  lemma {:induction false} MinifyObject(blank: string, fields: seq<Field>, s: string, i: nat)
    requires IsCommented(ObjectDoc(blank, fields)) && Occurs(s, i, DocText(ObjectDoc(blank, fields)))
    ensures M.Minify(s, i) ==
            M.Before(DocText(Compact(ObjectDoc(blank, fields))), M.Minify(s, i + |DocText(ObjectDoc(blank, fields))|))
    decreases fields, |fields| + 1
  {
    hide M.Minify, FieldTexts, Occurs, IsFiller, M.Before;
    var body, body' := if fields == [] then blank else FieldTexts(fields, 0), "";
    OccursSplit(s, i, "{" + body, "}");
    OccursSplit(s, i, "{", body);
    OccursHead(s, i, "{");
    OccursHead(s, i + 1 + |body|, "}");
    if fields == [] {
      FillerGone(blank, s, i + 1);
      BeforeNothing(M.Minify(s, i + 1));
    } else {
      MinifyFields(fields, 0, s, i + 1);
      body' := FieldTexts(CompactFields(fields), 0);
    }
    KeepLast('}', body, body', s, i + 1);
    Keep('{', body + "}", body' + "}", s, i);
    assert "{" + (body' + "}") == "{" + body' + "}";
  }

  lemma {:induction false} MinifyFields(fields: seq<Field>, k: nat, s: string, i: nat)
    requires k < |fields|
    requires forall x <- fields ::
               && IsFiller(x.before) && IsBody(x.name) && IsFiller(x.mid) && IsFiller(x.gap)
               && IsCommented(x.value) && IsFiller(x.after)
    requires Occurs(s, i, FieldTexts(fields, k))
    ensures M.Minify(s, i) ==
            M.Before(FieldTexts(CompactFields(fields), k), M.Minify(s, i + |FieldTexts(fields, k)|))
    decreases fields, |fields| - k
  {
    hide M.Minify, M.Before, DocText, StringText, Compact, Occurs, IsFiller, IsCommented, IsBody;
    var x := fields[k];
    assert x in fields;
    var name, text, text' := StringText(x.name), DocText(x.value), DocText(Compact(x.value));
    var rest := if k + 1 < |fields| then "," + FieldTexts(fields, k + 1) else "";
    var head := x.before + name + x.mid + ":" + x.gap;
    OccursSplit(s, i, head + text + x.after, rest);
    OccursSplit(s, i, head + text, x.after);
    OccursSplit(s, i, head, text);
    var v := i + |head|;
    var next := v + |text| + |x.after|;
    MinifyHead(x, s, i);
    MinifyDoc(x.value, s, v);
    FillerGone(x.after, s, v + |text|);
    M.BeforeTwice(name + ":", text', M.Minify(s, next));
    if k + 1 < |fields| {
      OccursSplit(s, next, ",", FieldTexts(fields, k + 1));
      OccursHead(s, next, ",");
      MinifyFields(fields, k + 1, s, next + 1);
      var rest' := FieldTexts(CompactFields(fields), k + 1);
      Keep(',', FieldTexts(fields, k + 1), rest', s, next);
      M.BeforeTwice(name + ":" + text', "," + rest', M.Minify(s, next + |rest|));
      assert "" + name + "" + ":" + "" + text' + "" + ("," + rest') == name + ":" + text' + ("," + rest');
    } else {
      assert "" + name + "" + ":" + "" + text' + "" + "" == name + ":" + text';
    }
  }

  lemma MinifyHead(x: Field, s: string, i: nat)
    requires IsFiller(x.before) && IsBody(x.name) && IsFiller(x.mid) && IsFiller(x.gap)
    requires Occurs(s, i, x.before + StringText(x.name) + x.mid + ":" + x.gap)
    ensures M.Minify(s, i) ==
            M.Before(StringText(x.name) + ":", M.Minify(s, i + |x.before + StringText(x.name) + x.mid + ":" + x.gap|))
  {
    hide M.Minify, M.Before, StringText, IsFiller, IsBody;
    var name := StringText(x.name);
    OccursSplit(s, i, x.before + name + x.mid + ":", x.gap);
    OccursSplit(s, i, x.before + name + x.mid, ":");
    OccursSplit(s, i, x.before + name, x.mid);
    OccursSplit(s, i, x.before, name);
    var q := i + |x.before|;
    FillerGone(x.before, s, i);
    StringKept(x.name, s, q);
    FillerGone(x.mid, s, q + |name|);
    OccursHead(s, q + |name| + |x.mid|, ":");
    FillerGone(x.gap, s, q + |name| + |x.mid| + 1);
    M.KeptText(":", s, q + |name| + |x.mid|);
    M.BeforeTwice(name, ":", M.Minify(s, q + |name| + |x.mid| + 1));
  }

  // ---- what is left ----

  lemma {:induction false} CompactIsDoc(d: Doc)
    requires IsCommented(d)
    ensures IsDoc(Compact(d))
    decreases d
  {
    hide IsFiller;
    match d
    case ArrayDoc(_, items) =>
      forall k | 0 <= k < |items| ensures IsDoc(Compact(items[k].value)) {
        assert items[k] in items;
        CompactIsDoc(items[k].value);
      }
    case ObjectDoc(_, fields) =>
      forall k | 0 <= k < |fields| ensures IsBody(fields[k].name) && IsDoc(Compact(fields[k].value)) {
        assert fields[k] in fields;
        CompactIsDoc(fields[k].value);
      }
    case _ =>
  }

  /** Without comments it means the same. */
  lemma {:induction false} CompactMeansSame(d: Doc)
    requires IsDoc(d)
    ensures IsCommented(d) && IsDoc(Compact(d)) && Tree(Compact(d)) == Tree(d)
    decreases d, 0
  {
    hide IsSpace, IsFiller, Denoted, ValueOf, Trees, MemberTrees;
    EmptyIsSpace();
    match d
    case ArrayDoc(blank, items) =>
      SpaceIsFiller(blank);
      ItemsMeanSame(items, 0);
      assert items[0..] == items;
    case ObjectDoc(blank, fields) =>
      SpaceIsFiller(blank);
      FieldsMeanSame(fields, 0);
      assert fields[0..] == fields;
    case _ =>
  }

  lemma {:induction false} ItemsMeanSame(items: seq<Item>, k: nat)
    requires k <= |items| && forall x <- items :: IsSpace(x.before) && IsDoc(x.value) && IsSpace(x.after)
    ensures forall x <- items[k..] :: IsFiller(x.before) && IsCommented(x.value) && IsFiller(x.after)
    ensures forall x <- CompactItems(items) :: IsSpace(x.before) && IsDoc(x.value) && IsSpace(x.after)
    ensures Trees(CompactItems(items), k) == Trees(items, k)
    decreases items, |items| - k
  {
    hide IsSpace, IsFiller, Tree, Compact, IsDoc, IsCommented;
    assert IsSpace("") by {
      EmptyIsSpace();
    }
    forall j | 0 <= j < |items| ensures IsDoc(Compact(items[j].value)) {
      assert items[j] in items;
      CompactMeansSame(items[j].value);
    }
    if k < |items| {
      assert items[k] in items;
      CompactMeansSame(items[k].value);
      SpaceIsFiller(items[k].before);
      SpaceIsFiller(items[k].after);
      ItemsMeanSame(items, k + 1);
    }
  }

  lemma EmptyIsSpace()
    ensures IsSpace("")
  {
  }

  lemma {:induction false} FieldsMeanSame(fields: seq<Field>, k: nat)
    requires k <= |fields|
    requires forall x <- fields ::
               && IsSpace(x.before) && IsBody(x.name) && IsSpace(x.mid) && IsSpace(x.gap)
               && IsDoc(x.value) && IsSpace(x.after)
    ensures forall x <- fields[k..] ::
              && IsFiller(x.before) && IsBody(x.name) && IsFiller(x.mid) && IsFiller(x.gap)
              && IsCommented(x.value) && IsFiller(x.after)
    ensures forall x <- CompactFields(fields) ::
              && IsSpace(x.before) && IsBody(x.name) && IsSpace(x.mid) && IsSpace(x.gap)
              && IsDoc(x.value) && IsSpace(x.after)
    ensures MemberTrees(CompactFields(fields), k) == MemberTrees(fields, k)
    decreases fields, |fields| - k
  {
    hide IsSpace, IsFiller, Tree, Compact, IsDoc, IsCommented, IsBody, Denoted;
    assert IsSpace("") by {
      EmptyIsSpace();
    }
    forall j | 0 <= j < |fields| ensures IsDoc(Compact(fields[j].value)) && IsBody(fields[j].name) {
      assert fields[j] in fields;
      CompactMeansSame(fields[j].value);
    }
    if k < |fields| {
      assert fields[k] in fields;
      CompactMeansSame(fields[k].value);
      SpaceIsFiller(fields[k].before);
      SpaceIsFiller(fields[k].mid);
      SpaceIsFiller(fields[k].gap);
      SpaceIsFiller(fields[k].after);
      FieldsMeanSame(fields, k + 1);
    }
  }

  /** A whole text with white space and comments: the compact one is left, and is read as the tree that it means. */
  lemma MinifyText(before: string, d: Doc, after: string)
    requires IsFiller(before) && IsCommented(d) && IsFiller(after)
    ensures M.Minify(before + DocText(d) + after, 0) == M.Text(DocText(Compact(d)))
    ensures IsDoc(Compact(d))
    ensures ReadAs(ParsedText(DocText(Compact(d)), true), Tree(Compact(d)), |DocText(Compact(d))|)
  {
    hide M.Minify, DocText, Compact, IsFiller, IsCommented, IsDoc, ParsedText, Tree, IsSpace;
    var s, t := before + DocText(d) + after, DocText(Compact(d));
    OccursIff(s, 0, s);
    OccursSplit(s, 0, before + DocText(d), after);
    OccursSplit(s, 0, before, DocText(d));
    FillerGone(before, s, 0);
    MinifyDoc(d, s, |before|);
    FillerGone(after, s, |before| + |DocText(d)|);
    M.MinifyStep(s, |s|);
    CompactIsDoc(d);
    EmptyIsSpace();
    TextRead("", Compact(d), "", true);
    assert "" + t + "" == t;
  }

  // ---- what is printed ----

  /** Formatted or not, the compact text of a tree is the same. */
  lemma {:induction false} CompactIsPlain(j: Json, depth: nat, depth': nat)
    ensures Compact(DocOf(j, depth, true)) == DocOf(j, depth', false)
    decreases j
  {
    match j
    case Array(items) =>
      forall k | 0 <= k < |items|
        ensures Compact(DocOf(items[k], depth + 1, true)) == DocOf(items[k], depth' + 1, false)
      {
        CompactIsPlain(items[k], depth + 1, depth' + 1);
      }
      assert CompactItems(ItemsOf(items, depth + 1, true)) == ItemsOf(items, depth' + 1, false);
    case Object(members) =>
      forall k | 0 <= k < |members|
        ensures Compact(DocOf(members[k].value, depth + 1, true)) == DocOf(members[k].value, depth' + 1, false)
      {
        CompactIsPlain(members[k].value, depth + 1, depth' + 1);
      }
      assert CompactFields(FieldsOf(members, depth + 1, true)) == FieldsOf(members, depth' + 1, false);
    case _ =>
  }

  /** Formatted text standing anywhere in s becomes unformatted text. */
  lemma MinifyFormatted(j: Json, depth: nat, s: string, i: nat)
    requires Printable(j) && Occurs(s, i, Text(j, depth, true))
    ensures M.Minify(s, i) == M.Before(Text(j, depth, false), M.Minify(s, i + |Text(j, depth, true)|))
  {
    hide M.Minify, DocText, Compact, DocOf, Text, IsDoc, IsCommented, Tree, Conveyed;
    PrintedIsDoc(j, depth, true);
    PrintedIsDoc(j, depth, false);
    CompactMeansSame(DocOf(j, depth, true));
    MinifyDoc(DocOf(j, depth, true), s, i);
    CompactIsPlain(j, depth, depth);
  }

  /** cJSON_Minify of what cJSON_Print returned is what cJSON_PrintUnformatted returns. */
  lemma MinifyOfPrint(j: Json)
    requires Printable(j)
    ensures M.Minify(Text(j, 0, true), 0) == M.Text(Text(j, 0, false))
  {
    var s := Text(j, 0, true);
    OccursIff(s, 0, s);
    MinifyFormatted(j, 0, s, 0);
  }
}
