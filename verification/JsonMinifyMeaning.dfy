/**
 When cJSON_Minify preserves meaning: a text that cJSON accepts is read as the same tree after its white space has been
 squeezed out, whoever wrote it, unless what is left behind a number continues it.
 */
module JsonMinifyMeaning {
  import opened CText
  import opened Json
  import opened Numerals
  import opened JsonParse
  import opened JsonMinify
  import JP = JsonParser
  import N = NumberScan

  /** From offset i' on, m is what minifying leaves of s from offset i on. */
  predicate Squeezed(s: string, i: nat, m: string, i': nat) {
    i' <= |m| && Minify(s, i) == JsonMinify.Text(m[i'..])
  }

  /** The same n characters stand in s at i and in m at i'. */
  predicate Same(s: string, i: nat, m: string, i': nat, n: nat)
    decreases n
  {
    n == 0 || (At(s, i) == At(m, i') && Same(s, i + 1, m, i' + 1, n - 1))
  }

  lemma {:induction false} SameRest(s: string, i: nat, m: string, i': nat, n: nat, k: nat)
    requires Same(s, i, m, i', n) && k <= n
    ensures Same(s, i + k, m, i' + k, n - k)
    ensures k < n ==> At(s, i + k) == At(m, i' + k)
    decreases k
  {
    if k > 0 {
      SameRest(s, i + 1, m, i' + 1, n - 1, k - 1);
    }
  }

  lemma {:induction false} SameText(t: string, s: string, i: nat, m: string, i': nat)
    requires Occurs(s, i, t) && Occurs(m, i', t)
    ensures Same(s, i, m, i', |t|)
    decreases |t|
  {
    if t != [] {
      SameText(t[1..], s, i + 1, m, i' + 1);
    }
  }

  // ---- one character, white space, and runs of kept characters ----

  lemma SqueezedKept(s: string, i: nat, m: string, i': nat)
    requires Squeezed(s, i, m, i')
    requires At(s, i) != 0 as char && !IsBlank(At(s, i)) && At(s, i) != '\"' && At(s, i) != '/'
    ensures At(m, i') == At(s, i) && Squeezed(s, i + 1, m, i' + 1)
  {
    var rest := Minify(s, i + 1);
    assert Minify(s, i) == Before([At(s, i)], rest);
    assert m[i'..] == [At(s, i)] + rest.text;
    assert |m| - i' == |m[i'..]| == 1 + |rest.text|;
    assert m[i'..][0] == m[i'] && m[i'..][1..] == m[i' + 1..] == rest.text;
  }

  lemma {:induction false} SqueezedSkip(s: string, i: nat, m: string, i': nat)
    requires Squeezed(s, i, m, i') && At(s, Skip(s, i)) != '/'
    ensures Squeezed(s, Skip(s, i), m, Skip(m, i'))
    ensures At(m, Skip(m, i')) == At(s, Skip(s, i))
    decreases Left(s, i)
  {
    hide StringEnd;
    var c := At(s, i);
    if 0 as char < c <= 32 as char {
      if IsBlank(c) {
        SqueezedSkip(s, i + 1, m, i');
      } else {
        SqueezedKept(s, i, m, i');
        SqueezedSkip(s, i + 1, m, i' + 1);
      }
    } else if c == '\"' {
      SqueezedQuote(s, i, m, i');
    } else if c != 0 as char {
      SqueezedKept(s, i, m, i');
    }
  }

  /** A string literal is moved as it is. */
  lemma SqueezedQuote(s: string, i: nat, m: string, i': nat)
    requires Squeezed(s, i, m, i') && At(s, i) == '\"'
    ensures var e := StringEnd(s, i + 1);
            && e < |s| && s[e] == '\"' && Same(s, i, m, i', e + 1 - i)
            && Squeezed(s, e + 1, m, i' + (e + 1 - i))
    ensures At(m, i') == '\"'
  {
    hide StringEnd;
    MinifyStep(s, i);
    var e := StringEnd(s, i + 1);
    var n, rest := e + 1 - i, Minify(s, e + 1);
    assert m[i'..] == s[i..e + 1] + rest.text;
    assert |m[i'..]| == n + |rest.text|;
    assert m[i' + n..] == m[i'..][n..] == rest.text;
    assert m[i'..i' + n] == m[i'..][..n] == s[i..e + 1];
    OccursIff(s, i, s[i..e + 1]);
    OccursIff(m, i', s[i..e + 1]);
    SameText(s[i..e + 1], s, i, m, i');
  }

  lemma {:induction false} SqueezedRun(s: string, i: nat, m: string, i': nat, n: nat)
    requires Squeezed(s, i, m, i')
    requires forall k :: i <= k < i + n ==> IsKept(At(s, k))
    ensures Squeezed(s, i + n, m, i' + n) && Same(s, i, m, i', n)
    decreases n
  {
    if n > 0 {
      assert IsKept(At(s, i));
      SqueezedKept(s, i, m, i');
      SqueezedRun(s, i + 1, m, i' + 1, n - 1);
    }
  }

  // ---- strings ----

  lemma {:induction false} SameStringEnd(s: string, i: nat, m: string, i': nat)
    requires var e := StringEnd(s, i); At(s, e) == '\"' && Same(s, i, m, i', e + 1 - i)
    ensures StringEnd(m, i') == i' + (StringEnd(s, i) - i)
    decreases Left(s, i)
  {
    var n := StringEnd(s, i) + 1 - i;
    if At(s, i) == '\\' {
      SameRest(s, i, m, i', n, 2);
      SameStringEnd(s, i + 2, m, i' + 2);
    } else if At(s, i) != '\"' {
      SameRest(s, i, m, i', n, 1);
      SameStringEnd(s, i + 1, m, i' + 1);
    }
  }

  function MoveEscape(e: Unescaped, from: nat, to: nat): Unescaped
    requires e.CodePoint? ==> from <= e.last
  {
    if e.CodePoint? then e.(last := to + (e.last - from)) else e
  }

  lemma SameHex(s: string, i: nat, m: string, i': nat, n: nat)
    requires Same(s, i, m, i', n) && 4 <= n
    ensures Hex4(s, i) == Hex4(m, i')
  {
    SameRest(s, i, m, i', n, 1);
    SameRest(s, i, m, i', n, 2);
    SameRest(s, i, m, i', n, 3);
  }

  lemma SameEscape(s: string, p: nat, m: string, p': nat, end: nat)
    requires p <= end && Same(s, p, m, p', end + 1 - p)
    ensures UnicodeEscape(m, p', p' + (end - p)) == MoveEscape(UnicodeEscape(s, p, end), p, p')
  {
    hide Hex4, Same;
    var n := end + 1 - p;
    if p + 4 < end {
      SameRest(s, p, m, p', n, 1);
      SameHex(s, p + 1, m, p' + 1, n - 1);
      if p + 10 <= end {
        SameRest(s, p, m, p', n, 5);
        SameRest(s, p, m, p', n, 6);
        SameRest(s, p, m, p', n, 7);
        SameHex(s, p + 7, m, p' + 7, n - 7);
      }
    }
  }

  function MoveBody(d: Decoded, from: nat, to: nat): Decoded
    requires d.Body? ==> from <= d.stop
  {
    if d.Body? then d.(stop := to + (d.stop - from)) else d
  }

  lemma {:induction false} SameDecode(s: string, p: nat, m: string, p': nat, end: nat)
    requires end == StringEnd(s, p) && At(s, end) == '\"' && Same(s, p, m, p', end + 1 - p)
    ensures Decode(m, p', p' + (end - p)) == MoveBody(Decode(s, p, end), p, p')
    decreases end - p
  {
    hide Decode, StringEnd, UnicodeEscape, Utf8, Same, SimpleEscape;
    var n := end + 1 - p;
    SameRest(s, p, m, p', n, 0);
    if p < end {
      SameRest(s, p, m, p', n, 1);
      SameStringEnd(s, p, m, p');
      if At(s, p) == '\\' && At(s, p + 1) == 'u' {
        JP.UnicodeStep(s, p);
        JP.UnicodeStep(m, p');
        SameEscape(s, p + 1, m, p' + 1, end);
        var e := UnicodeEscape(s, p + 1, end);
        if e.CodePoint? {
          SameRest(s, p, m, p', n, e.last + 1 - p);
          SameDecode(s, e.last + 1, m, p' + (e.last + 1 - p), end);
        }
      } else {
        JP.SimpleStep(s, p);
        JP.SimpleStep(m, p');
        var k := if At(s, p) == '\\' then 2 else 1;
        SameRest(s, p, m, p', n, k);
        SameDecode(s, p + k, m, p' + k, end);
      }
    } else {
      JP.DecodeStops(s, p, end);
      JP.DecodeStops(m, p', p');
    }
  }

  lemma SqueezedString(s: string, i: nat, m: string, i': nat) returns (e': nat)
    requires Squeezed(s, i, m, i') && ParsedString(s, i).Done?
    ensures ParsedString(m, i') == ParsedString(s, i).(end := e')
    ensures Squeezed(s, ParsedString(s, i).end, m, e')
  {
    hide Decode, StringEnd;
    SqueezedQuote(s, i, m, i');
    var e := StringEnd(s, i + 1);
    SameRest(s, i, m, i', e + 1 - i, 1);
    SameStringEnd(s, i + 1, m, i' + 1);
    SameDecode(s, i + 1, m, i' + 1, e);
    JP.DecodedFits(s, i + 1);
    SameRest(s, i, m, i', e + 1 - i, e - i);
    e' := i' + (e + 1 - i);
  }

  // ---- numbers ----

  /** Offsets i and i' start the same n characters, with a character that belongs to no number behind both. */
  predicate SameRun(s: string, i: nat, m: string, i': nat, n: nat) {
    Same(s, i, m, i', n) && !N.IsNumberCharacter(At(s, i + n)) && !N.IsNumberCharacter(At(m, i' + n))
  }

  lemma SameRunRest(s: string, i: nat, m: string, i': nat, n: nat, k: nat)
    requires SameRun(s, i, m, i', n) && k <= n
    ensures SameRun(s, i + k, m, i' + k, n - k)
    ensures At(s, i + k) == At(m, i' + k) || !(N.IsNumberCharacter(At(s, i + k)) || N.IsNumberCharacter(At(m, i' + k)))
    ensures N.IsNumberCharacter(At(s, i + k)) ==> k < n
  {
    SameRest(s, i, m, i', n, k);
  }

  lemma {:induction false} SameScan(s: string, i: nat, m: string, i': nat, n: nat, acc: nat)
    requires SameRun(s, i, m, i', n)
    ensures var (v, e) := ScanDigits(s, i, acc);
            e <= i + n && ScanDigits(m, i', acc) == (v, i' + (e - i))
    decreases n
  {
    hide Same;
    SameRunRest(s, i, m, i', n, 0);
    if IsDigit(At(s, i)) {
      SameRunRest(s, i, m, i', n, 1);
      SameScan(s, i + 1, m, i' + 1, n - 1, acc * 10 + DigitValue(s[i]));
    }
  }

  lemma SameExponent(s: string, i: nat, m: string, i': nat, n: nat)
    requires SameRun(s, i, m, i', n)
    ensures var (v, e) := ParsedExponent(s, i);
            e <= i + n && ParsedExponent(m, i') == (v, i' + (e - i))
  {
    hide ScanDigits, SameRun;
    SameRunRest(s, i, m, i', n, 0);
    if At(s, i) == 'e' || At(s, i) == 'E' {
      SameRunRest(s, i, m, i', n, 1);
      if At(s, i + 1) == '+' || At(s, i + 1) == '-' {
        SameRunRest(s, i, m, i', n, 2);
        SameScan(s, i + 2, m, i' + 2, n - 2, 0);
      } else {
        SameScan(s, i + 1, m, i' + 1, n - 1, 0);
      }
    }
  }

  lemma SameWhole(s: string, i: nat, m: string, i': nat, n: nat)
    requires SameRun(s, i, m, i', n)
    ensures var (v, e) := N.WholeDigits(s, i);
            i <= e <= i + n && N.WholeDigits(m, i') == (v, i' + (e - i))
  {
    hide ScanDigits, SameRun;
    SameRunRest(s, i, m, i', n, 0);
    var k := if At(s, i) == '0' then 1 else 0;
    SameRunRest(s, i, m, i', n, k);
    SameScan(s, i + k, m, i' + k, n - k, 0);
  }

  lemma SameMagnitude(s: string, i: nat, m: string, i': nat, n: nat)
    requires SameRun(s, i, m, i', n)
    ensures var (v, power, e) := ParsedMagnitude(s, i);
            e <= i + n && ParsedMagnitude(m, i') == (v, power, i' + (e - i))
  {
    hide ScanDigits, SameRun, ParsedExponent;
    SameWhole(s, i, m, i', n);
    var (whole, i3) := N.WholeDigits(s, i);
    SameRunRest(s, i, m, i', n, i3 - i);
    var k := i3 - i;
    if At(s, i3) == '.' {
      SameRunRest(s, i, m, i', n, k + 1);
      if IsDigit(At(s, i3 + 1)) {
        SameScan(s, i3 + 1, m, i' + k + 1, n - (k + 1), whole);
        k := ScanDigits(s, i3 + 1, whole).1 - i;
      }
    }
    SameRunRest(s, i, m, i', n, k);
    SameExponent(s, i + k, m, i' + k, n - k);
  }

  lemma SameNumber(s: string, i: nat, m: string, i': nat, n: nat)
    requires SameRun(s, i, m, i', n)
    ensures ParsedNumber(s, i).end <= i + n
    ensures ParsedNumber(m, i') == ParsedNumber(s, i).(end := i' + (ParsedNumber(s, i).end - i))
  {
    hide ParsedMagnitude, SameRun, Scaled;
    SameRunRest(s, i, m, i', n, 0);
    var k := if At(s, i) == '-' then 1 else 0;
    SameRunRest(s, i, m, i', n, k);
    SameMagnitude(s, i + k, m, i' + k, n - k);
  }

  /** What stands behind a value in an accepted document. */
  predicate Follows(s: string, e: nat) {
    var c := At(s, Skip(s, e));
    c == ',' || c == ']' || c == '}' || c == 0 as char
  }

  // ---- a number and what is left behind it ----

  lemma {:induction false} SameCut(s: string, i: nat, m: string, i': nat, n: nat, f: nat, f': nat)
    requires Same(s, i, m, i', n) && i + n <= f <= |s| && i' + n <= f' <= |m|
    ensures Same(s[..f], i, m[..f'], i', n)
    decreases n
  {
    if n > 0 {
      SameCut(s, i + 1, m, i' + 1, n - 1, f, f');
    }
  }

  /** The same characters are the same number. */
  lemma SameNumberText(s: string, i: nat, m: string, i': nat, n: nat)
    requires Same(s, i, m, i', n) && i + n <= |s| && i' + n <= |m|
    requires ParsedNumber(s, i).end == i + n && ParsedNumber(m, i').end == i' + n
    ensures ParsedNumber(m, i') == ParsedNumber(s, i).(end := i' + n)
  {
    hide ParsedNumber, Same;
    SameCut(s, i, m, i', n, i + n, i' + n);
    SameNumber(s[..i + n], i, m[..i' + n], i', n);
    N.NumberCut(s, i, i + n);
    N.NumberCut(m, i', i' + n);
  }

  /** After the same characters a scan goes on if and only if what follows continues the number. */
  lemma {:induction false} SameStates(s: string, i: nat, m: string, i': nat, n: nat, state: N.State)
    requires Same(s, i, m, i', n) && N.ScanEnd(s, i, state) == i + n
    ensures i' + n <= N.ScanEnd(m, i', state)
    ensures N.ScanEnd(m, i', state) == i' + n <==>
            N.Step(N.StateAfter(s, i, state, n), At(m, i' + n), At(m, i' + n + 1)).None?
    decreases n
  {
    hide N.Step;
    if n > 0 {
      SameRest(s, i, m, i', n, 1);
      var next := N.Step(state, At(s, i), At(s, i + 1));
      assert next.Some?;
      OneCharacter(state, At(s, i), At(s, i + 1), At(s, i + 2), At(m, i' + 1));
      SameStates(s, i + 1, m, i' + 1, n - 1, next.value);
    }
  }

  /** The character behind matters only for the point, which is not taken without it. */
  lemma OneCharacter(state: N.State, c: char, d: char, e: char, d': char)
    ensures N.Step(state, c, d) == N.Step(state, c, d') || (c == '.' && IsDigit(d) != IsDigit(d'))
    ensures N.Step(state, c, d).Some? && c == '.' ==> N.Step(N.Step(state, c, d).value, d, e).Some?
  {
  }

  lemma {:induction false} TakenKept(s: string, i: nat, state: N.State)
    ensures forall k :: i <= k < N.ScanEnd(s, i, state) ==> IsKept(At(s, k))
    decreases Left(s, i)
  {
    match N.Step(state, At(s, i), At(s, i + 1))
    case None =>
    case Some(next) => TakenKept(s, i + 1, next);
  }

  /** What minifying leaves behind the number at i continues it. */
  predicate Continued(s: string, i: nat) {
    var e := ParsedNumber(s, i).end;
    var rest := Minify(s, e);
    && rest.Text?
    && N.Step(N.StateAfter(s, i, N.Nothing, e - i), At(rest.text, 0), At(rest.text, 1)).Some?
  }

  lemma RestAt(m: string, i: nat, k: nat)
    requires i <= |m|
    ensures At(m[i..], k) == At(m, i + k)
  {
  }

  /** The characters of a number are kept; the number they are read as is the same unless it is continued. */
  lemma NumberMoved(s: string, i: nat, m: string, i': nat) returns (e': nat)
    requires Squeezed(s, i, m, i') && i <= |s|
    ensures Squeezed(s, ParsedNumber(s, i).end, m, e')
    ensures Continued(s, i) <==> e' < ParsedNumber(m, i').end
    ensures !Continued(s, i) ==> ParsedNumber(m, i') == ParsedNumber(s, i).(end := e')
  {
    hide ParsedNumber, Same, Minify, N.Step, N.ScanEnd, N.StateAfter;
    var e := ParsedNumber(s, i).end;
    N.NumberEnd(s, i);
    N.NumberEnd(m, i');
    TakenKept(s, i, N.Nothing);
    SqueezedRun(s, i, m, i', e - i);
    e' := i' + (e - i);
    SameStates(s, i, m, i', e - i, N.Nothing);
    RestAt(m, e', 0);
    RestAt(m, e', 1);
    if !Continued(s, i) {
      SameNumberText(s, i, m, i', e - i);
    }
  }

  /** In an accepted document no number is continued. */
  lemma FollowedNumber(s: string, i: nat, m: string, i': nat)
    requires Squeezed(s, i, m, i') && i <= |s| && Follows(s, ParsedNumber(s, i).end)
    ensures !Continued(s, i)
  {
    hide ParsedNumber, Minify, N.StateAfter, N.Step;
    var e := ParsedNumber(s, i).end;
    var e' := NumberMoved(s, i, m, i');
    SqueezedSkip(s, e, m, e');
    RestAt(m, e', 0);
    assert N.IsNumberCharacter(At(m, e')) ==> Skip(m, e') == e';
  }

  lemma SqueezedNumber(s: string, i: nat, m: string, i': nat) returns (e': nat)
    requires Squeezed(s, i, m, i') && i <= |s| && (Follows(s, ParsedNumber(s, i).end) || !Continued(s, i))
    ensures ParsedNumber(m, i') == ParsedNumber(s, i).(end := e')
    ensures Squeezed(s, ParsedNumber(s, i).end, m, e')
  {
    hide ParsedNumber, Follows, Continued;
    if Follows(s, ParsedNumber(s, i).end) {
      FollowedNumber(s, i, m, i');
    }
    e' := NumberMoved(s, i, m, i');
  }

  // ---- values ----

  lemma NumberItem(s: string, i: nat)
    ensures ParsedNumber(s, i).Done? && ParsedNumber(s, i).item.Number?
  {
  }

  /** A value at i is read again at i', and the two texts stay in step behind it. */
  lemma {:induction false} SqueezedValue(s: string, i: nat, m: string, i': nat) returns (e': nat)
    requires Squeezed(s, i, m, i')
    requires ParsedValue(s, i).Done?
    requires ParsedValue(s, i).item.Number? ==> Follows(s, ParsedValue(s, i).end) || !Continued(s, i)
    ensures ParsedValue(m, i') == ParsedValue(s, i).(end := e')
    ensures Squeezed(s, ParsedValue(s, i).end, m, e')
    ensures At(m, i') == At(s, i)
    decreases Left(s, i), 1
  {
    NumberItem(s, i);
    hide Minify, Continued, ParsedNumber, ParsedString, ParsedArray, ParsedObject, Skip;
    if At(s, i) == '\"' {
      e' := SqueezedString(s, i, m, i');
      SqueezedQuote(s, i, m, i');
    } else if At(s, i) == '-' || IsDigit(At(s, i)) {
      SqueezedKept(s, i, m, i');
      e' := SqueezedNumber(s, i, m, i');
    } else if At(s, i) == '[' {
      SqueezedKept(s, i, m, i');
      e' := SqueezedArray(s, i, m, i');
    } else if At(s, i) == '{' {
      SqueezedKept(s, i, m, i');
      e' := SqueezedObject(s, i, m, i');
    } else {
      e' := SqueezedWord(s, i, m, i');
    }
  }

  lemma SqueezedWord(s: string, i: nat, m: string, i': nat) returns (e': nat)
    requires Squeezed(s, i, m, i')
    requires Occurs(s, i, "null") || Occurs(s, i, "false") || Occurs(s, i, "true")
    ensures ParsedValue(s, i).Done?
    ensures ParsedValue(m, i') == ParsedValue(s, i).(end := e')
    ensures Squeezed(s, ParsedValue(s, i).end, m, e')
    ensures At(m, i') == At(s, i)
  {
    hide Minify;
    var word := if Occurs(s, i, "null") then "null" else if Occurs(s, i, "false") then "false" else "true";
    SqueezedOccurs(word, s, i, m, i');
    e' := i' + |word|;
  }

  lemma {:induction false} SqueezedOccurs(t: string, s: string, i: nat, m: string, i': nat)
    requires Squeezed(s, i, m, i') && Occurs(s, i, t) && forall c <- t :: IsKept(c)
    ensures Occurs(m, i', t) && Squeezed(s, i + |t|, m, i' + |t|)
    decreases |t|
  {
    hide Minify;
    if t != [] {
      assert t[0] in t;
      SqueezedKept(s, i, m, i');
      SqueezedOccurs(t[1..], s, i + 1, m, i' + 1);
    }
  }

  lemma {:induction false} SqueezedArray(s: string, i: nat, m: string, i': nat) returns (e': nat)
    requires Squeezed(s, i, m, i') && At(s, i) == '[' && At(m, i') == '[' && ParsedArray(s, i).Done?
    ensures ParsedArray(m, i') == ParsedArray(s, i).(end := e')
    ensures Squeezed(s, ParsedArray(s, i).end, m, e')
    decreases Left(s, i), 0
  {
    hide Minify, ParsedList, ParsedValue, Skip;
    SqueezedKept(s, i, m, i');
    var first, first' := Skip(s, i + 1), Skip(m, i' + 1);
    if At(s, first) == ']' {
      SqueezedSkip(s, i + 1, m, i' + 1);
      SqueezedKept(s, first, m, first');
      e' := first' + 1;
    } else {
      SkipTwice(s, i + 1);
      ListStart(s, first);
      SqueezedSkip(s, i + 1, m, i' + 1);
      e' := SqueezedList(s, first, m, first');
    }
  }

  /** The characters a value can start with. */
  predicate StartsValue(c: char) {
    c == 'n' || c == 'f' || c == 't' || c == '\"' || c == '-' || IsDigit(c) || c == '[' || c == '{'
  }

  lemma SkipTwice(s: string, i: nat)
    ensures Skip(s, Skip(s, i)) == Skip(s, i)
  {
  }

  lemma ValueStart(s: string, i: nat)
    requires ParsedValue(s, i).Done?
    ensures StartsValue(At(s, i)) && Skip(s, i) == i
  {
    hide ParsedNumber, ParsedString, ParsedArray, ParsedObject;
  }

  lemma ListStart(s: string, i: nat)
    requires ParsedList(s, i).Items?
    ensures ParsedValue(s, Skip(s, i)).Done? && StartsValue(At(s, Skip(s, i)))
    ensures var value := ParsedValue(s, Skip(s, i));
            var rest := ParsedListRest(s, Skip(s, value.end));
            rest.Items? && ParsedList(s, i) == After([value.item], rest) && Follows(s, value.end)
  {
    hide ParsedValue, Skip;
    ValueStart(s, Skip(s, i));
  }

  lemma {:induction false} SqueezedList(s: string, i: nat, m: string, i': nat) returns (e': nat)
    requires Squeezed(s, i, m, i') && ParsedList(s, i).Items?
    ensures ParsedList(m, i') == ParsedList(s, i).(end := e')
    ensures Squeezed(s, ParsedList(s, i).end, m, e')
    decreases Left(s, i), 2
  {
    hide Minify, ParsedValue, ParsedList, Skip;
    ListStart(s, i);
    SqueezedSkip(s, i, m, i');
    var v, v' := Skip(s, i), Skip(m, i');
    var t' := SqueezedValue(s, v, m, v');
    var t := ParsedValue(s, v).end;
    SqueezedSkip(s, t, m, t');
    var next, next' := Skip(s, t), Skip(m, t');
    JP.ListFirst(m, i');
    SqueezedKept(s, next, m, next');
    if At(s, next) == ',' {
      e' := SqueezedList(s, next + 1, m, next' + 1);
    } else {
      e' := next' + 1;
    }
  }

  lemma {:induction false} SqueezedObject(s: string, i: nat, m: string, i': nat) returns (e': nat)
    requires Squeezed(s, i, m, i') && At(s, i) == '{' && At(m, i') == '{' && ParsedObject(s, i).Done?
    ensures ParsedObject(m, i') == ParsedObject(s, i).(end := e')
    ensures Squeezed(s, ParsedObject(s, i).end, m, e')
    decreases Left(s, i), 0
  {
    hide Minify, ParsedMemberList, ParsedValue, ParsedString, Skip;
    SqueezedKept(s, i, m, i');
    var first, first' := Skip(s, i + 1), Skip(m, i' + 1);
    if At(s, first) == '}' {
      SqueezedSkip(s, i + 1, m, i' + 1);
      SqueezedKept(s, first, m, first');
      e' := first' + 1;
    } else {
      SkipTwice(s, i + 1);
      MemberStart(s, first);
      SqueezedSkip(s, i + 1, m, i' + 1);
      e' := SqueezedMembers(s, first, m, first');
    }
  }

  lemma MemberStart(s: string, i: nat)
    requires ParsedMemberList(s, i).Members?
    ensures At(s, Skip(s, i)) == '\"' && ParsedString(s, Skip(s, i)).Done?
    ensures var colon := Skip(s, ParsedString(s, Skip(s, i)).end);
            var value := ParsedValue(s, Skip(s, colon + 1));
            var rest := ParsedMemberRest(s, Skip(s, value.end));
            && At(s, colon) == ':' && value.Done? && StartsValue(At(s, Skip(s, colon + 1)))
            && rest.Members? && Follows(s, value.end)
            && ParsedMemberList(s, i) ==
               AfterMembers([Member(ParsedString(s, Skip(s, i)).item.str, value.item)], rest)
  {
    hide ParsedValue, Skip;
    JP.MembersFirst(s, i);
    ValueStart(s, Skip(s, Skip(s, ParsedString(s, Skip(s, i)).end) + 1));
  }

  lemma {:induction false} SqueezedMembers(s: string, i: nat, m: string, i': nat) returns (e': nat)
    requires Squeezed(s, i, m, i') && ParsedMemberList(s, i).Members?
    ensures ParsedMemberList(m, i') == ParsedMemberList(s, i).(end := e')
    ensures Squeezed(s, ParsedMemberList(s, i).end, m, e')
    decreases Left(s, i), 2
  {
    hide Minify, ParsedValue, ParsedString, ParsedMemberList, Skip;
    MemberStart(s, i);
    SqueezedSkip(s, i, m, i');
    var q, q' := Skip(s, i), Skip(m, i');
    var n' := SqueezedString(s, q, m, q');
    var n := ParsedString(s, q).end;
    SqueezedSkip(s, n, m, n');
    var colon, colon' := Skip(s, n), Skip(m, n');
    SqueezedKept(s, colon, m, colon');
    SqueezedSkip(s, colon + 1, m, colon' + 1);
    var v, v' := Skip(s, colon + 1), Skip(m, colon' + 1);
    var t' := SqueezedValue(s, v, m, v');
    var t := ParsedValue(s, v).end;
    SqueezedSkip(s, t, m, t');
    var next, next' := Skip(s, t), Skip(m, t');
    JP.MembersFirst(m, i');
    SqueezedKept(s, next, m, next');
    if At(s, next) == ',' {
      e' := SqueezedMembers(s, next + 1, m, next' + 1);
    } else {
      e' := next' + 1;
    }
  }

  /** The value of m is that of s, and what is behind it is what minifying leaves of what is behind the value of s. */
  ghost predicate SameReading(s: string, m: string) {
    var r, r' := ParsedText(s, false), ParsedText(m, false);
    r.Done? && r'.Done? && r'.item == r.item && Squeezed(s, r.end, m, r'.end)
  }

  /** For texts that need not end with their value: the reading stays the same if and only if the value is not a number
      that is continued by what is left behind it. */
  lemma MinifyKeepsReading(s: string)
    requires ParsedText(s, false).Done? && Minify(s, 0).Text?
    ensures SameReading(s, Minify(s, 0).text) <==>
            !(ParsedText(s, false).item.Number? && Continued(s, Skip(s, 0)))
  {
    var i := Skip(s, 0);
    NumberStart(s, i);
    hide Minify, ParsedValue, ParsedNumber, Skip, Continued;
    var m := Minify(s, 0).text;
    assert m[0..] == m;
    ValueStart(s, i);
    SqueezedSkip(s, 0, m, 0);
    var i' := Skip(m, 0);
    if ParsedText(s, false).item.Number? && Continued(s, i) {
      var e' := NumberMoved(s, i, m, i');
      NumberStart(m, i');
      assert |m[e'..]| > |m[ParsedNumber(m, i').end..]|;
    } else {
      var e' := SqueezedValue(s, i, m, i');
    }
  }

  /** A value is a number exactly if it starts as one. */
  lemma NumberStart(s: string, i: nat)
    ensures At(s, i) == '-' || IsDigit(At(s, i)) ==> ParsedValue(s, i) == ParsedNumber(s, i)
    ensures ParsedValue(s, i).Done? && ParsedValue(s, i).item.Number? ==> At(s, i) == '-' || IsDigit(At(s, i))
    ensures i <= |s| ==> ParsedNumber(s, i).end <= |s|
  {
    hide ParsedNumber, ParsedString, ParsedArray, ParsedObject, N.ScanEnd;
    N.NumberEnd(s, i);
    Brackets(s, i);
  }

  lemma Brackets(s: string, i: nat)
    ensures At(s, i) == '[' && ParsedArray(s, i).Done? ==> ParsedArray(s, i).item.Array?
    ensures At(s, i) == '{' && ParsedObject(s, i).Done? ==> ParsedObject(s, i).item.Object?
  {
    hide ParsedList, ParsedMemberList;
  }

  /** Every document accepted as a whole keeps its meaning, if the routine stays inside it. */
  lemma MinifyPreservesMeaning(s: string)
    requires ParsedText(s, true).Done? && Minify(s, 0).Text?
    ensures var m := Minify(s, 0).text;
            ParsedText(m, true).Done? && ParsedText(m, true).item == ParsedText(s, true).item
  {
    hide Minify, ParsedValue, Skip;
    var m := Minify(s, 0).text;
    assert m[0..] == m;
    ValueStart(s, Skip(s, 0));
    SqueezedSkip(s, 0, m, 0);
    var e' := SqueezedValue(s, Skip(s, 0), m, Skip(m, 0));
    SqueezedSkip(s, ParsedValue(s, Skip(s, 0)).end, m, e');
  }

  /** Without the check for the end it need not: the blank kept two numbers apart. */
  lemma MinifyJoinsTokens()
    ensures Minify("1 2", 0) == JsonMinify.Text("12")
    ensures ParsedText("1 2", false) == Done(Int(1), 1)
    ensures ParsedText("12", false) == Done(Int(12), 2)
  {
    assert Minify("1 2", 3) == JsonMinify.Text("");
    assert Minify("1 2", 2) == JsonMinify.Text("2");
    assert Minify("1 2", 1) == JsonMinify.Text("2");
    assert ScanDigits("1 2", 0, 0) == (1, 1);
    assert ScanDigits("12", 1, 1) == (12, 2);
    assert ScanDigits("12", 0, 0) == (12, 2);
  }
}
