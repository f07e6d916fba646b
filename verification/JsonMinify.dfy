/**
 cJSON_Minify (cjson.c): white space and comments are squeezed out in place, strings are kept.  The routine runs past
 the terminator when a string or a block comment is left open; Unterminated stands for that.
 */
module JsonMinify {
  import opened CText
  import opened Json
  import opened Numerals
  import opened JsonParse
  import opened JsonText
  import opened CBuffer

  datatype Minified = Unterminated | Text(text: string)

  function Before(t: string, rest: Minified): Minified {
    if rest.Text? then Text(t + rest.text) else rest
  }

  predicate IsBlank(c: char) {
    c == ' ' || c == '\t' || c == '\r' || c == '\n'
  }

  /** The end of a line comment: the line break, or the terminator. */
  function LineEnd(s: string, i: nat): (e: nat)
    ensures i <= e && (At(s, i) != '\n' && At(s, i) != 0 as char ==> i < e)
    decreases Left(s, i)
  {
    if At(s, i) != 0 as char && At(s, i) != '\n' then LineEnd(s, i + 1) else i
  }

  /** The closing asterisk of a block comment, or the terminator. */
  function CommentEnd(s: string, i: nat): (e: nat)
    ensures i <= e
    ensures At(s, e) == 0 as char || (At(s, e) == '*' && At(s, e + 1) == '/')
    decreases Left(s, i)
  {
    if At(s, i) != 0 as char && !(At(s, i) == '*' && At(s, i + 1) == '/') then CommentEnd(s, i + 1) else i
  }

  /** What is left of s[i..]. */
  function Minify(s: string, i: nat): Minified
    decreases Left(s, i)
  {
    var c := At(s, i);
    if c == 0 as char then Text("")
    else if IsBlank(c) then Minify(s, i + 1)
    else if c == '/' && At(s, i + 1) == '/' then Minify(s, LineEnd(s, i))
    else if c == '/' && At(s, i + 1) == '*' then
      var e := CommentEnd(s, i);
      if At(s, e) == 0 as char then Unterminated else Minify(s, e + 2)
    else if c == '\"' then
      var e := StringEnd(s, i + 1);
      if At(s, e) == 0 as char then Unterminated else Before(s[i..e + 1], Minify(s, e + 1))
    else Before([c], Minify(s, i + 1))
  }

  // ---- the routine ----

  /** The buffer still holds s from offset p on. */
  ghost predicate Unread(json: array<char>, s: string, p: nat)
    reads json
  {
    |s| < json.Length && forall k :: p <= k <= |s| ==> json[k] == At(s, k)
  }

  /** past: the routine would read on behind the terminator, which it does exactly when something stays open. */
  method MinifyInPlace(json: array<char>, ghost s: string) returns (past: bool)
    requires Holds(json, s) && 0 as char !in s
    modifies json
    ensures past <==> Minify(s, 0).Unterminated?
    ensures !past ==> Holds(json, Minify(s, 0).text)
  {
    hide Minify, LineEnd, CommentEnd, StringEnd;
    past := false;
    var p, into := 0, 0;
    assert Unread(json, s, 0) by {
      assert forall k :: 0 <= k < |s| ==> json[k] == json[..|s|][k];
    }
    ghost var whole := Minify(s, 0);
    assert whole == Before(json[..into], Minify(s, p));
    while json[p] != 0 as char
      invariant 0 <= into <= p <= |s| && Unread(json, s, p)
      invariant whole == Before(json[..into], Minify(s, p))
      decreases |s| - p
    {
      MinifyStep(s, p);
      if IsBlank(json[p]) {
        p := p + 1;
      } else if json[p] == '/' && json[p + 1] == '/' {
        p := SkipLine(json, s, p);
      } else if json[p] == '/' && json[p + 1] == '*' {
        p, past := SkipComment(json, s, p);
        if past {
          return;
        }
      } else if json[p] == '\"' {
        ghost var done, literal := json[..into], p;
        p, into, past := CopyString(json, s, p, into);
        if past {
          return;
        }
        BeforeTwice(done, s[literal..p], Minify(s, p));
      } else {
        ghost var done, c := json[..into], json[p];
        json[into] := json[p];
        p, into := p + 1, into + 1;
        assert json[..into] == done + [c];
        BeforeTwice(done, [c], Minify(s, p));
      }
    }
    MinifyStep(s, p);
    json[into] := 0 as char;
  }

  method SkipLine(json: array<char>, ghost s: string, p: nat) returns (e: nat)
    requires p < |s| && Unread(json, s, p) && s[p] == '/'
    ensures e == LineEnd(s, p) && p < e <= |s|
  {
    e := p;
    while json[e] != 0 as char && json[e] != '\n'
      invariant p <= e <= |s| && LineEnd(s, e) == LineEnd(s, p)
      decreases |s| - e
    {
      e := e + 1;
    }
  }

  method SkipComment(json: array<char>, ghost s: string, p: nat) returns (e: nat, past: bool)
    requires p < |s| && Unread(json, s, p)
    ensures past <==> At(s, CommentEnd(s, p)) == 0 as char
    ensures !past ==> e == CommentEnd(s, p) + 2 && p < e <= |s|
  {
    e := p;
    while json[e] != 0 as char && !(json[e] == '*' && json[e + 1] == '/')
      invariant p <= e <= |s| && CommentEnd(s, e) == CommentEnd(s, p)
      decreases |s| - e
    {
      e := e + 1;
    }
    past := json[e] == 0 as char;
    e := e + 2;
  }

  /** Moves a string literal, quotes and all. */
  method CopyString(json: array<char>, ghost s: string, p: nat, into: nat) returns (p': nat, into': nat, past: bool)
    requires into <= p < |s| && Unread(json, s, p) && 0 as char !in s
    modifies json
    ensures past <==> At(s, StringEnd(s, p + 1)) == 0 as char
    ensures !past ==> p' == StringEnd(s, p + 1) + 1 && p' <= |s| && into' == into + (p' - p)
    ensures !past ==> Unread(json, s, p') && json[..into'] == old(json[..into]) + s[p..p']
  {
    hide StringEnd;
    ghost var before := json[..into];
    ghost var end := StringEnd(s, p + 1);
    assert before + s[p..p] == before;
    Move(json, s, p, into, p, before);
    p', into', past := p + 1, into + 1, false;
    while json[p'] != 0 as char && json[p'] != '\"'
      invariant p < p' <= |s| && into' == into + (p' - p) && Unread(json, s, p') && StringEnd(s, p') == end
      invariant json[..into'] == before + s[p..p']
      decreases |s| - p'
    {
      p', into', past := CopyCharacter(json, s, p', into', p, before);
      if past {
        return;
      }
    }
    StringEndStep(s, p');
    if json[p'] == 0 as char {
      past := true;
      return;
    }
    Move(json, s, p', into', p, before);
    p', into' := p' + 1, into' + 1;
  }

  /** One turn of the loop over a literal: a character, with the backslash before it. */
  method CopyCharacter(json: array<char>, ghost s: string, p: nat, into: nat, ghost start: nat, ghost before: string)
    returns (p': nat, into': nat, past: bool)
    requires into <= p && start <= p < |s| && At(s, p) != 0 as char && At(s, p) != '\"'
    requires Unread(json, s, p) && json[..into] == before + s[start..p] && 0 as char !in s
    modifies json
    ensures past ==> At(s, StringEnd(s, p)) == 0 as char
    ensures !past ==> p < p' <= |s| && StringEnd(s, p) == StringEnd(s, p') && into' == into + (p' - p)
    ensures !past ==> Unread(json, s, p') && json[..into'] == before + s[start..p']
  {
    hide StringEnd;
    StringEndStep(s, p);
    p', into', past := p, into, false;
    if json[p'] == '\\' {
      Move(json, s, p', into', start, before);
      p', into' := p' + 1, into' + 1;
      if json[p'] == 0 as char {
        assert p' == |s|;
        StringEndStep(s, p' + 1);
        past := true;
        return;
      }
    }
    Move(json, s, p', into', start, before);
    p', into' := p' + 1, into' + 1;
  }

  /** *into++ = *json++, inside a literal that starts at offset start. */
  method Move(json: array<char>, ghost s: string, p: nat, into: nat, ghost start: nat, ghost before: string)
    requires into <= p < |s| && start <= p && Unread(json, s, p)
    requires json[..into] == before + s[start..p]
    modifies json
    ensures Unread(json, s, p + 1)
    ensures json[..into + 1] == before + s[start..p + 1]
  {
    json[into] := json[p];
    assert s[start..p + 1] == s[start..p] + [s[p]];
  }

  lemma StringEndStep(s: string, i: nat)
    ensures StringEnd(s, i) ==
            if At(s, i) == '\"' || At(s, i) == 0 as char then i
            else if At(s, i) == '\\' then StringEnd(s, i + 2)
            else StringEnd(s, i + 1)
  {
  }

  lemma BeforeTwice(a: string, b: string, rest: Minified)
    ensures Before(a, Before(b, rest)) == Before(a + b, rest)
  {
    if rest.Text? {
      assert a + (b + rest.text) == (a + b) + rest.text;
    }
  }

  /** The cases of the loop. */
  lemma MinifyStep(s: string, i: nat)
    ensures var c := At(s, i);
            if c == 0 as char then Minify(s, i) == Text("")
            else if IsBlank(c) then Minify(s, i) == Minify(s, i + 1)
            else if c == '/' && At(s, i + 1) == '/' then Minify(s, i) == Minify(s, LineEnd(s, i))
            else if c == '/' && At(s, i + 1) == '*' then
              if At(s, CommentEnd(s, i)) == 0 as char then Minify(s, i) == Unterminated
              else Minify(s, i) == Minify(s, CommentEnd(s, i) + 2)
            else if c == '\"' then
              var e := StringEnd(s, i + 1);
              if At(s, e) == 0 as char then Minify(s, i) == Unterminated
              else e < |s| && s[e] == '\"' && Minify(s, i) == Before(s[i..e + 1], Minify(s, e + 1))
            else Minify(s, i) == Before([c], Minify(s, i + 1))
  {
    hide LineEnd, CommentEnd;
    if At(s, i) == '\"' {
      StringEndStops(s, i + 1);
    }
  }

  lemma {:induction false} StringEndStops(s: string, i: nat)
    ensures At(s, StringEnd(s, i)) == '\"' || At(s, StringEnd(s, i)) == 0 as char
    decreases Left(s, i)
  {
    if At(s, i) != '\"' && At(s, i) != 0 as char {
      StringEndStops(s, if At(s, i) == '\\' then i + 2 else i + 1);
    }
  }

  // ---- what is kept ----

  /** A character that is neither blank nor the start of a literal or a comment is kept. */
  predicate IsKept(c: char) {
    c != 0 as char && !IsBlank(c) && c != '/' && c != '\"'
  }

  lemma {:induction false} KeptText(t: string, s: string, i: nat)
    requires Occurs(s, i, t) && forall c <- t :: IsKept(c)
    ensures Minify(s, i) == Before(t, Minify(s, i + |t|))
    decreases |t|
  {
    hide LineEnd, CommentEnd, StringEnd;
    if t != [] {
      OccursHead(s, i, t);
      assert t[0] in t;
      KeptText(t[1..], s, i + 1);
      BeforeTwice([t[0]], t[1..], Minify(s, i + |t|));
      assert [t[0]] + t[1..] == t;
    }
  }
}
