/**
 Which accepted documents cJSON_Minify runs out of: those that are one string without a closing quote, which the parser
 takes for a value.
 */
module JsonMinifyClosed {
  import opened CText
  import opened Json
  import opened Numerals
  import opened JsonParse
  import opened JsonMinify
  import opened JsonMinifyMeaning
  import JP = JsonParser
  import N = NumberScan

  /** Between the two offsets nothing stays open. */
  predicate Passes(s: string, i: nat, e: nat) {
    Minify(s, i).Unterminated? <==> Minify(s, e).Unterminated?
  }

  /** A string starts at i and has no closing quote. */
  predicate IsOpen(s: string, i: nat) {
    At(s, i) == '\"' && At(s, StringEnd(s, i + 1)) == 0 as char
  }

  lemma PassKept(s: string, i: nat)
    requires At(s, i) != 0 as char && At(s, i) != '\"' && At(s, i) != '/'
    ensures Passes(s, i, i + 1)
  {
    hide Minify;
    MinifyStep(s, i);
  }

  lemma {:induction false} PassSkip(s: string, i: nat)
    ensures Passes(s, i, Skip(s, i))
    decreases Left(s, i)
  {
    hide Minify;
    if 0 as char < At(s, i) <= 32 as char {
      PassKept(s, i);
      PassSkip(s, i + 1);
    }
  }

  lemma {:induction false} PassRun(s: string, i: nat, n: nat)
    requires forall k :: i <= k < i + n ==> IsKept(At(s, k))
    ensures Passes(s, i, i + n)
    decreases n
  {
    hide Minify;
    if n > 0 {
      assert IsKept(At(s, i));
      PassKept(s, i);
      PassRun(s, i + 1, n - 1);
    }
  }

  /** A closed string is passed, and an open one ends the text. */
  lemma PassString(s: string, i: nat)
    requires ParsedString(s, i).Done?
    ensures IsOpen(s, i) ==> Minify(s, i).Unterminated? && At(s, Skip(s, ParsedString(s, i).end)) == 0 as char
    ensures !IsOpen(s, i) ==> Passes(s, i, ParsedString(s, i).end)
  {
    hide Minify, Decode, StringEnd;
    MinifyStep(s, i);
    StringEndStops(s, i + 1);
    JP.DecodedFits(s, i + 1);
  }

  lemma PassNumber(s: string, i: nat)
    ensures Passes(s, i, ParsedNumber(s, i).end)
  {
    hide Minify, ParsedNumber, N.ScanEnd;
    N.NumberEnd(s, i);
    TakenKept(s, i, N.Nothing);
    PassRun(s, i, ParsedNumber(s, i).end - i);
  }

  lemma PassWord(s: string, i: nat, word: string)
    requires Occurs(s, i, word) && forall c <- word :: IsKept(c)
    ensures Passes(s, i, i + |word|)
  {
    hide Minify, Occurs;
    forall k | i <= k < i + |word| ensures IsKept(At(s, k)) {
      OccursAt(s, i, word, k - i);
      assert word[k - i] in word;
    }
    PassRun(s, i, |word|);
  }

  /** A value that is no open string is passed. */
  lemma {:induction false} PassValue(s: string, i: nat)
    requires ParsedValue(s, i).Done?
    ensures IsOpen(s, i) ==> Minify(s, i).Unterminated? && At(s, Skip(s, ParsedValue(s, i).end)) == 0 as char
    ensures !IsOpen(s, i) ==> Passes(s, i, ParsedValue(s, i).end)
    decreases Left(s, i), 1
  {
    hide Passes, Skip, ParsedNumber, ParsedString, ParsedArray, ParsedObject;
    if At(s, i) == '\"' {
      PassString(s, i);
    } else if At(s, i) == '-' || IsDigit(At(s, i)) {
      PassNumber(s, i);
    } else if At(s, i) == '[' {
      PassArray(s, i);
    } else if At(s, i) == '{' {
      PassObject(s, i);
    } else {
      PassWord(s, i, if Occurs(s, i, "null") then "null" else if Occurs(s, i, "false") then "false" else "true");
    }
  }

  lemma {:induction false} PassArray(s: string, i: nat)
    requires At(s, i) == '[' && ParsedArray(s, i).Done?
    ensures Passes(s, i, ParsedArray(s, i).end)
    decreases Left(s, i), 0
  {
    hide Minify, Skip, ParsedList;
    PassKept(s, i);
    PassSkip(s, i + 1);
    var first := Skip(s, i + 1);
    if At(s, first) == ']' {
      PassKept(s, first);
    } else {
      PassList(s, first);
    }
  }

  lemma {:induction false} PassList(s: string, i: nat)
    requires ParsedList(s, i).Items?
    ensures Passes(s, i, ParsedList(s, i).end)
    decreases Left(s, i), 2
  {
    hide Minify, Skip, ParsedValue, ParsedList;
    ListStart(s, i);
    var v := Skip(s, i);
    var t := ParsedValue(s, v).end;
    var next := Skip(s, t);
    ListNext(s, next);
    PassSkip(s, i);
    PassValue(s, v);
    PassSkip(s, t);
    PassKept(s, next);
    if At(s, next) == ',' {
      PassList(s, next + 1);
    }
  }

  lemma ListNext(s: string, i: nat)
    requires ParsedListRest(s, i).Items?
    ensures At(s, i) == ',' || At(s, i) == ']'
    ensures At(s, i) == ',' ==> ParsedListRest(s, i) == ParsedList(s, i + 1)
    ensures At(s, i) != ',' ==> ParsedListRest(s, i).end == i + 1
  {
    hide ParsedList;
  }

  lemma {:induction false} PassObject(s: string, i: nat)
    requires At(s, i) == '{' && ParsedObject(s, i).Done?
    ensures Passes(s, i, ParsedObject(s, i).end)
    decreases Left(s, i), 0
  {
    hide Minify, Skip, ParsedMemberList;
    PassKept(s, i);
    PassSkip(s, i + 1);
    var first := Skip(s, i + 1);
    if At(s, first) == '}' {
      PassKept(s, first);
    } else {
      PassMembers(s, first);
    }
  }

  lemma MembersNext(s: string, i: nat)
    requires ParsedMemberRest(s, i).Members?
    ensures At(s, i) == ',' || At(s, i) == '}'
    ensures At(s, i) == ',' ==> ParsedMemberRest(s, i) == ParsedMemberList(s, i + 1)
    ensures At(s, i) != ',' ==> ParsedMemberRest(s, i).end == i + 1
  {
    hide ParsedMemberList;
  }

  lemma {:induction false} PassMembers(s: string, i: nat)
    requires ParsedMemberList(s, i).Members?
    ensures Passes(s, i, ParsedMemberList(s, i).end)
    decreases Left(s, i), 2
  {
    hide Minify, Skip, ParsedValue, ParsedString, ParsedMemberList;
    MemberStart(s, i);
    var q := Skip(s, i);
    var n := ParsedString(s, q).end;
    var colon := Skip(s, n);
    var v := Skip(s, colon + 1);
    var t := ParsedValue(s, v).end;
    var next := Skip(s, t);
    MembersNext(s, next);
    PassSkip(s, i);
    PassString(s, q);
    PassSkip(s, n);
    PassKept(s, colon);
    PassSkip(s, colon + 1);
    PassValue(s, v);
    PassSkip(s, t);
    PassKept(s, next);
    if At(s, next) == ',' {
      PassMembers(s, next + 1);
    }
  }

  /** The routine runs out of an accepted document if and only if the document is an open string. */
  lemma AcceptedOpen(s: string)
    requires ParsedText(s, true).Done?
    ensures Minify(s, 0).Unterminated? <==> IsOpen(s, Skip(s, 0))
  {
    hide Skip, ParsedValue, IsOpen;
    var i := Skip(s, 0);
    var e := ParsedValue(s, i).end;
    PassSkip(s, 0);
    PassValue(s, i);
    PassSkip(s, e);
    EndPasses(s, Skip(s, e));
  }

  lemma EndPasses(s: string, i: nat)
    requires At(s, i) == 0 as char
    ensures Minify(s, i) == JsonMinify.Text("")
  {
  }

  /** So every other document accepted as a whole keeps its meaning. */
  lemma AcceptedKeepsMeaning(s: string)
    requires ParsedText(s, true).Done? && !IsOpen(s, Skip(s, 0))
    ensures Minify(s, 0).Text?
    ensures ParsedText(Minify(s, 0).text, true).Done?
    ensures ParsedText(Minify(s, 0).text, true).item == ParsedText(s, true).item
  {
    hide Minify, Skip, IsOpen, ParsedText;
    AcceptedOpen(s);
    MinifyPreservesMeaning(s);
  }
}
