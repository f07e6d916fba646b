/**
 How a JSON tree crosses the control connection: the transfer loops of net.c, which the system may cut into pieces of
 any size, and the frames of iperf_api.c, JSON_write and JSON_read, a length of four octets before each text.
 */
module ControlFrame {
  import opened CInt
  import opened CText
  import opened CBuffer
  import opened Json
  import opened Numerals
  import opened JsonParse
  import opened JsonText
  import opened Wrappers
  import JsonNames
  import JsonParser
  import JsonPrinter
  import JsonRoundTrip

  // ---- the length ----

  const WIDTH: nat := 0x1_0000_0000

  /** htonl, as the octets it leaves in memory. */
  function BigEndian(n: nat): (t: string)
    ensures |t| == 4
  {
    [(n / 256 / 256 / 256 % 256) as char, (n / 256 / 256 % 256) as char, (n / 256 % 256) as char, (n % 256) as char]
  }

  function Octet(c: char): nat {
    c as nat % 256
  }

  /** ntohl */
  function Length(t: string): (n: nat)
    requires |t| == 4
    ensures n < WIDTH
  {
    ((Octet(t[0]) * 256 + Octet(t[1])) * 256 + Octet(t[2])) * 256 + Octet(t[3])
  }

  lemma OctetsOf(n: nat)
    ensures var t := BigEndian(n);
            && Octet(t[0]) == n / 256 / 256 / 256 % 256 && Octet(t[1]) == n / 256 / 256 % 256
            && Octet(t[2]) == n / 256 % 256 && Octet(t[3]) == n % 256
  {
  }

  lemma LastOctet(n: nat)
    ensures n == n / 256 * 256 + n % 256
  {
  }

  lemma LengthRoundTrip(n: nat)
    requires n < WIDTH
    ensures Length(BigEndian(n)) == n
  {
    hide BigEndian, Octet;
    OctetsOf(n);
    assert n / 256 / 256 / 256 < 256;
    LastOctet(n);
    LastOctet(n / 256);
    LastOctet(n / 256 / 256);
  }

  // ---- frames ----

  /** The length of a text, cut to 32 bits. */
  function Size(text: string): (n: nat)
    ensures n < WIDTH && n <= |text| && (|text| < WIDTH ==> n == |text|)
  {
    |text| % WIDTH
  }

  /** What JSON_write puts on the connection. */
  function Frame(text: string): string {
    Part(text, 4, Size(text))
  }

  /** The first characters of the length and of the text. */
  function Part(text: string, sized: nat, put: nat): string
    requires sized <= 4 && put <= |text|
  {
    BigEndian(Size(text))[..sized] + text[..put]
  }

  function UpToNul(s: string): (t: string)
    ensures |t| <= |s| && t == s[..|t|]
    ensures 0 as char !in t
    ensures |t| < |s| ==> s[|t|] == 0 as char
  {
    if s == "" || s[0] == 0 as char then "" else [s[0]] + UpToNul(s[1..])
  }

  /** cJSON_Parse */
  function Parsed(s: string): Option<Json> {
    match ParsedText(s, false)
    case Done(item, _) => Some(item)
    case Fail(_) => None
  }

  /** What JSON_read makes of a stream that ends where it ends: a tree or NULL, and the rest of the stream.  From 2^31
      the count of what was read is negative as an int, which stands for a failure. */
  function ReadFrame(stream: string): (Option<Json>, string) {
    if |stream| < 4 then (None, "")
    else
      var n := Length(stream[..4]);
      if |stream| < 4 + n then (None, "")
      else (if n <= INT_MAX then Parsed(UpToNul(stream[4..4 + n])) else None, stream[4 + n..])
  }

  /** The room for the text and its terminator is computed in 32 bits. */
  predicate Overruns(stream: string) {
    |stream| > 4 && Length(stream[..4]) + 1 == WIDTH
  }

  lemma CStringUpToNul(s: string)
    requires IsCString(s)
    ensures UpToNul(s) == s
  {
    if |UpToNul(s)| < |s| {
      assert s[|UpToNul(s)|] in s;
    }
  }

  lemma FrameParts(text: string, rest: string)
    requires |text| < WIDTH
    ensures var stream := Frame(text) + rest;
            && |stream| == 4 + |text| + |rest| && Length(stream[..4]) == |text|
            && stream[4..4 + |text|] == text && stream[4 + |text|..] == rest
  {
    hide Length, BigEndian, Size;
    LengthRoundTrip(|text|);
    assert (Frame(text) + rest)[..4] == BigEndian(|text|);
  }

  /** What is shown of a tree arrives if its text is shorter than 2^31, and otherwise nothing does; behind the frame
      nothing is read. */
  lemma FrameRoundTrip(j: Json, rest: string)
    requires Printable(j) && |Text(j, 0, false)| < WIDTH
    ensures var stream := Frame(Text(j, 0, false)) + rest;
            && ReadFrame(stream) == (if |Text(j, 0, false)| <= INT_MAX then Some(Conveyed(j)) else None, rest)
            && (Overruns(stream) <==> |Text(j, 0, false)| + 1 == WIDTH)
  {
    hide Text, Printable, Frame, Length, UpToNul, ParsedText, Conveyed;
    var text := Text(j, 0, false);
    FrameParts(text, rest);
    TextIsCString(j, 0, false);
    CStringUpToNul(text);
    JsonRoundTrip.ParseOfPrint(j, false, false);
  }

  /** Frames arrive in the order they were sent. */
  lemma FramesInOrder(j1: Json, j2: Json, rest: string)
    requires Printable(j1) && |Text(j1, 0, false)| <= INT_MAX
    requires Printable(j2) && |Text(j2, 0, false)| <= INT_MAX
    ensures var stream := Frame(Text(j1, 0, false)) + Frame(Text(j2, 0, false)) + rest;
            ReadFrame(stream).0 == Some(Conveyed(j1)) && ReadFrame(ReadFrame(stream).1) == (Some(Conveyed(j2)), rest)
  {
    hide Text, Printable, Frame, ReadFrame, Conveyed;
    var f1, f2 := Frame(Text(j1, 0, false)), Frame(Text(j2, 0, false));
    assert f1 + f2 + rest == f1 + (f2 + rest);
    FrameRoundTrip(j1, f2 + rest);
    FrameRoundTrip(j2, rest);
  }

  /** What has come over a connection: octets, NUL among them. */
  predicate IsBytes(s: string) {
    forall c <- s :: c < 256 as char
  }

  lemma SliceIsBytes(s: string, lo: nat, hi: nat)
    requires IsBytes(s) && lo <= hi <= |s|
    ensures IsBytes(s[lo..hi])
  {
    forall c | c in s[lo..hi] ensures c < 256 as char {
      assert c in s;
    }
  }

  /** Whatever comes, the names in the tree are C strings. */
  lemma ParsedNamed(s: string)
    requires IsBytes(s) && Parsed(UpToNul(s)).Some?
    ensures JsonNames.Named(Parsed(UpToNul(s)).value)
  {
    hide UpToNul, ParsedValue, JsonNames.Named;
    var t := UpToNul(s);
    forall k | 0 <= k < |t| ensures 0 as char < t[k] < 256 as char {
      assert t[k] in t && t[k] == s[k] && s[k] in s;
    }
    JsonNames.ParsedValueNamed(t, Skip(t, 0));
  }

  lemma ReadFrameNamed(stream: string)
    requires IsBytes(stream) && ReadFrame(stream).0.Some?
    ensures JsonNames.Named(ReadFrame(stream).0.value)
  {
    hide Length, UpToNul, Parsed, JsonNames.Named;
    SliceIsBytes(stream, 4, 4 + Length(stream[..4]));
    ParsedNamed(stream[4..4 + Length(stream[..4])]);
  }

  // ---- transfers ----

  const NET_SOFTERROR: int := -1
  const NET_HARDERROR: int := -2

  // errno after a failed call, as far as it makes a difference.
  datatype Errno = Interrupted | WouldBlock | NoBuffers | Other

  /** A connection: what is still to come until its end, and what has been written.  On one that is not reliable any
      call can fail. */
  class Connection {
    const reliable: bool
    var incoming: string
    var outgoing: string
    ghost var failure: Option<Errno> // what the last call of a transfer failed with

    constructor (incoming: string, reliable: bool)
      ensures this.incoming == incoming && outgoing == "" && this.reliable == reliable
    {
      this.incoming := incoming;
      outgoing := "";
      this.reliable := reliable;
      failure := None;
    }

    /** read(2): as many characters as the system chooses, and none only at the end. */
    method Read(buf: array<char>, at: nat, count: nat) returns (r: int, errno: Errno)
      requires at + count <= buf.Length && 0 < count
      modifies this`incoming, this`failure, buf
      ensures failure == if r < 0 then Some(errno) else None
      ensures r < 0 ==> !reliable && incoming == old(incoming) && buf[..] == old(buf[..])
      ensures r >= 0 ==> r <= count && r <= |old(incoming)| && (r == 0 <==> old(incoming) == "")
      ensures r >= 0 ==> incoming == old(incoming)[r..]
      ensures r >= 0 ==> buf[..at + r] == old(buf[..at]) + old(incoming)[..r] && buf[at + r..] == old(buf[at + r..])
    {
      errno := Fault();
      failure := None;
      var fails: bool := *;
      if !reliable && fails {
        failure := Some(errno);
        return -1, errno;
      }
      if incoming == "" {
        return 0, errno;
      }
      var n: nat :| 1 <= n <= count && n <= |incoming|;
      r := n;
      forall k | 0 <= k < r {
        buf[at + k] := incoming[k];
      }
      incoming := incoming[r..];
    }

    /** write(2): as many characters as the system chooses, but some. */
    method Write(buf: array<char>, at: nat, count: nat) returns (r: int, errno: Errno)
      requires at + count <= buf.Length && 0 < count
      modifies this`outgoing, this`failure
      ensures failure == if r < 0 then Some(errno) else None
      ensures r <= 0 ==> !reliable && outgoing == old(outgoing)
      ensures r > 0 ==> r <= count && outgoing == old(outgoing) + buf[at..at + r]
    {
      errno := Fault();
      failure := None;
      var fails: int := *;
      if !reliable && fails <= 0 {
        failure := if fails < 0 then Some(errno) else None;
        return fails, errno;
      }
      var n: nat :| 1 <= n <= count;
      r := n;
      outgoing := outgoing + buf[at..at + r];
    }

    /** What the system says of a failure. */
    static method Fault() returns (errno: Errno)
    {
      var choice: int := *;
      errno := if choice == 0 then Interrupted else if choice == 1 then WouldBlock else if choice == 2 then NoBuffers
               else Other;
    }

    /** Whatever the pieces: the next got characters and no others, all that were asked for unless the connection ends
        or fails.  The result is got as an int, also if a signal or an empty socket has cut the transfer short, and
        negative on any other failure. */
    method Nread(buf: array<char>, count: nat) returns (n: int, ghost got: nat)
      requires count <= buf.Length
      modifies this`incoming, this`failure, buf
      ensures got <= count && got <= |old(incoming)| && incoming == old(incoming)[got..]
      ensures buf[..got] == old(incoming)[..got] && buf[got..] == old(buf[got..])
      ensures n == if failure in [Some(NoBuffers), Some(Other)] then NET_HARDERROR else ToInt32(got)
      ensures failure == None ==> got == count || incoming == ""
      ensures failure != None ==> !reliable
      ensures reliable ==> n == ToInt32(got) && got == if count <= |old(incoming)| then count else |old(incoming)|
    {
      hide ToInt32;
      failure := None;
      var nleft: nat := count;
      while nleft > 0
        invariant nleft <= count && count - nleft <= |old(incoming)| && failure == None
        invariant incoming == old(incoming)[count - nleft..]
        invariant buf[..count - nleft] == old(incoming)[..count - nleft]
        invariant buf[count - nleft..] == old(buf[count - nleft..])
      {
        ghost var at := count - nleft;
        var r, errno := Read(buf, count - nleft, nleft);
        if r <= 0 {
          if r < 0 && errno != Interrupted && errno != WouldBlock {
            return NET_HARDERROR, at;
          }
          break;
        }
        assert old(incoming)[..at] + old(incoming)[at..][..r] == old(incoming)[..at + r];
        nleft := nleft - r;
      }
      n, got := ToInt32(count - nleft), count - nleft;
    }

    /** Whatever the pieces: the first put characters of the buffer, all of them unless the connection fails or takes
        nothing.  Cut short by a signal or a full socket, it is no error. */
    method Nwrite(buf: array<char>, count: nat) returns (n: int, ghost put: nat)
      requires count <= buf.Length
      modifies this`outgoing, this`failure
      ensures put <= count && outgoing == old(outgoing) + buf[..put]
      ensures match failure
              case None => n == if put == count then ToInt32(put) else NET_SOFTERROR
              case Some(Interrupted) | Some(WouldBlock) => n == ToInt32(put) && put < count
              case Some(NoBuffers) => n == NET_SOFTERROR && put < count
              case Some(Other) => n == NET_HARDERROR && put < count
      ensures failure != None ==> !reliable
      ensures reliable ==> put == count && n == ToInt32(count)
    {
      failure := None;
      var nleft: nat := count;
      while nleft > 0
        invariant nleft <= count && failure == None
        invariant outgoing == old(outgoing) + buf[..count - nleft]
      {
        ghost var at := count - nleft;
        var r, errno := Write(buf, count - nleft, nleft);
        if r < 0 {
          match errno {
            case Interrupted | WouldBlock => return ToInt32(count - nleft), at;
            case NoBuffers => return NET_SOFTERROR, at;
            case Other => return NET_HARDERROR, at;
          }
        } else if r == 0 {
          return NET_SOFTERROR, at;
        }
        assert buf[..at + r] == buf[..at] + buf[at..at + r];
        nleft := nleft - r;
      }
      n, put := ToInt32(count), count;
    }

    /** A reliable connection takes the whole frame, and -1 says only that the count was negative as an int; on another
        any part of the length and of the text can be missing. */
    method JsonWrite(j: Json) returns (r: int, ghost sized: nat, ghost put: nat, ghost first: int, ghost second: int)
      requires Printable(j)
      modifies this`outgoing, this`failure
      ensures r == if first < 0 || second < 0 then -1 else 0
      ensures first < 0 ==> put == 0 == second
      ensures 0 <= first ==> first == sized
      ensures sized <= 4 && put <= |Text(j, 0, false)|
      ensures outgoing == old(outgoing) + Part(Text(j, 0, false), sized, put)
      ensures reliable ==> outgoing == old(outgoing) + Frame(Text(j, 0, false))
      ensures reliable ==> r == if Size(Text(j, 0, false)) <= INT_MAX then 0 else -1
    {
      hide Text, Printable, BigEndian;
      ghost var text := Text(j, 0, false);
      TextIsCString(j, 0, false);
      r, put := 0, 0;
      var str := JsonPrinter.Print(j, false);
      var length := Strlen(str, 0, text);
      var hsize := length % WIDTH;
      var octets := BigEndian(hsize);
      var nsize := new char[4](i requires 0 <= i < 4 => octets[i]);
      assert nsize[..4] == octets;
      var n;
      n, sized := Nwrite(nsize, 4);
      first, second := n, 0;
      assert nsize[..sized] == octets[..sized];
      if n < 0 {
        r := -1;
      } else {
        n, put := Nwrite(str, hsize);
        second := n;
        if n < 0 {
          r := -1;
        }
        assert str[..put] == str[..length][..put] == text[..put];
      }
    }

    /** The text behind a length, and the tree in it if all of it came and its length is not negative as an int. */
    method ReadText(hsize: nat) returns (json: Option<Json>, ghost taken: nat)
      requires IsBytes(incoming) && hsize + 1 < WIDTH
      modifies this`incoming, this`failure
      ensures taken <= hsize && taken <= |old(incoming)| && incoming == old(incoming)[taken..]
      ensures json.Some? ==> taken == hsize <= INT_MAX && json == Parsed(UpToNul(old(incoming)[..hsize]))
      ensures reliable ==> taken == if hsize <= |old(incoming)| then hsize else |old(incoming)|
      ensures reliable && taken == hsize <= INT_MAX ==> json == Parsed(UpToNul(old(incoming)[..hsize]))
    {
      hide ParsedText, UpToNul;
      json := None;
      var str := new char[hsize + 1](_ => 0 as char);
      ghost var clear := str[..];
      var rc;
      rc, taken := Nread(str, hsize);
      assert str[..] == str[..taken] + str[taken..] && str[taken..] == clear[taken..];
      if rc == hsize {
        assert str[..] == old(incoming)[..hsize] + [0 as char];
        var text := CStringOf(str);
        var parsed := JsonParser.ParseWithOpts(text, false);
        json := if parsed.Done? then Some(parsed.item) else None;
        UpToNulOfTerminated(old(incoming)[..hsize]);
      }
    }

    /** On a reliable connection what ReadFrame says, unless the room was too small; on another the same if the length
        was read and a tree was made. */
    method JsonRead() returns (json: Option<Json>, overran: bool, ghost sized: bool)
      requires IsBytes(incoming)
      modifies this`incoming, this`failure
      ensures json.Some? ==> JsonNames.Named(json.value)
      ensures json.Some? && sized ==> (json, incoming) == ReadFrame(old(incoming))
      ensures reliable ==> (sized <==> |old(incoming)| >= 4) && (overran <==> Overruns(old(incoming)))
      ensures reliable && !overran ==> (json, incoming) == ReadFrame(old(incoming))
    {
      hide Parsed, UpToNul, JsonNames.Named, Length;
      ghost var stream := incoming;
      json, overran, sized := None, false, false;
      var nsize := new char[4];
      var n, got := Nread(nsize, 4);
      sized := got == 4;
      if n < 0 {
        return;
      }
      if sized {
        assert nsize[..] == stream[..4];
      } else {
        NothingToParse();
      }
      var hsize := Length(nsize[..]);
      if (hsize + 1) % WIDTH == 0 {
        overran := incoming != "";
        return;
      }
      ghost var rest, taken := incoming, 0;
      SliceIsBytes(stream, got, |stream|);
      assert rest == stream[got..|stream|];
      json, taken := ReadText(hsize);
      assert incoming == rest[taken..] == stream[got + taken..];
      if json.Some? {
        SliceIsBytes(rest, 0, hsize);
        ParsedNamed(rest[..hsize]);
      }
      if taken == hsize {
        assert rest[..hsize] == stream[got..got + hsize];
      }
    }
  }

  /** The C string at the start of a buffer that has a terminator. */
  method CStringOf(a: array<char>) returns (s: string)
    requires 0 < a.Length && a[a.Length - 1] == 0 as char
    ensures s == UpToNul(a[..])
  {
    var n := 0;
    while a[n] != 0 as char
      invariant n < a.Length && 0 as char !in a[..n]
      decreases a.Length - n
    {
      n := n + 1;
    }
    s := a[..n];
    assert a[..][..n] == a[..n];
    FirstNul(a[..], n);
  }

  lemma {:induction false} FirstNul(s: string, n: nat)
    requires n < |s| && s[n] == 0 as char && 0 as char !in s[..n]
    ensures UpToNul(s) == s[..n]
  {
    if n > 0 {
      assert s[..n] == [s[0]] + s[1..][..n - 1];
      FirstNul(s[1..], n - 1);
    }
  }

  lemma UpToNulOfTerminated(s: string)
    ensures UpToNul(s + [0 as char]) == UpToNul(s)
  {
    var n := |UpToNul(s)|;
    assert (s + [0 as char])[..n] == UpToNul(s);
    FirstNul(s + [0 as char], n);
  }

  /** Nothing is made of an empty text, which is what a length cut short can leave. */
  lemma NothingToParse()
    ensures Parsed(UpToNul("")) == None && ""[..0] == ""
  {
  }
}
