/**
 send_parameters and get_parameters as they run, on the fields of a test and over a connection.
 */
module ParameterMethods {
  import opened CInt
  import opened ControlFrame
  import opened ObjectItems
  import opened Parameters
  import opened ParameterExchange
  import opened Wrappers
  import J = Json
  import JsonNames

  lemma NextEntry(o: Options, key: Key, members: seq<J.Member>)
    requires members == Entries(o, Rank(key))
    ensures Entries(o, Rank(key) + 1) ==
            if Sent(o, key).Some? then members + [J.Member(Name(key), Sent(o, key).value)] else members
  {
    hide Name, Sent, Nth, Rank;
  }

  lemma NoEntries(o: Options)
    ensures Entries(o, 0) == []
  {
  }

  // ---- cJSON_AddTrueToObject and the like, behind the test of the field ----

  method AddIf(j: seq<J.Member>, key: Key, sent: bool, value: J.Json, ghost o: Options) returns (j': seq<J.Member>)
    requires j == Entries(o, Rank(key)) && Sent(o, key) == When(sent, value)
    ensures j' == Entries(o, Rank(key) + 1)
  {
    hide Entries, Name, Sent, Rank;
    NextEntry(o, key, j);
    j' := j;
    if sent {
      j' := j + [J.Member(Name(key), value)];
    }
  }

  // ---- cJSON_GetObjectItem and the assignment behind the test of its result ----

  method Get(j: J.Json, key: Key) returns (item: Option<J.Json>)
    requires JsonNames.Named(j)
    ensures item == Lookup(j, Name(key))
  {
    hide Name, Lookup;
    NameIsCString(key);
    item := GetObjectItem(j, Name(key));
  }

  method Has(j: J.Json, key: Key) returns (given: bool)
    requires JsonNames.Named(j)
    ensures given <==> Given(j, key)
  {
    hide Name, Lookup;
    var item := Get(j, key);
    given := item.Some?;
  }

  method TakeInt32(j: J.Json, key: Key, kept: int) returns (n: int)
    requires JsonNames.Named(j)
    ensures n == Int32Of(j, key, kept)
  {
    hide Name, Lookup;
    var item := Get(j, key);
    n := if item.Some? then ToInt32(ValueInt(item.value)) else kept;
  }

  method TakeUint64(j: J.Json, key: Key, kept: nat) returns (n: nat)
    requires JsonNames.Named(j)
    ensures n == Uint64Of(j, key, kept)
  {
    hide Name, Lookup;
    var item := Get(j, key);
    n := if item.Some? then ToUint64(ValueInt(item.value)) else kept;
  }

  method TakeString(j: J.Json, key: Key, kept: Option<string>) returns (s: Option<string>)
    requires JsonNames.Named(j)
    ensures s == StringOf(j, key, kept)
  {
    hide Name, Lookup;
    var item := Get(j, key);
    s := kept;
    if item.Some? {
      s := if item.value.String? then Some(item.value.str) else None;
    }
  }

  method TakeFlag(j: J.Json, key: Key, kept: int) returns (n: int)
    requires JsonNames.Named(j)
    ensures n == FlagOf(j, key, kept)
  {
    hide Name, Lookup;
    var item := Get(j, key);
    n := if item.Some? then 1 else kept;
  }

  /** A test, with the fields of struct iperf_test and struct iperf_settings that the exchange reads or writes. */
  class Test {
    var o: Options

    /** iperf_defaults, on memory that has been cleared. */
    constructor ()
      ensures o == DEFAULTS
    {
      o := Options(Tcp, false, 0, -1, DURATION, 0, 0, 0, false, 1, false, 0, DEFAULT_TCP_BLKSIZE, 0, 0, 0, 0, None,
                   None, 0, 0, 0);
    }

    /** iperf_reset_test */
    method ResetTest()
      modifies this
      ensures o == Reset(old(o))
    {
      o := o.(sender := false, protocol := Tcp, omit := 0, duration := DURATION, serverAffinity := -1);
      o := o.(reverse := false, noDelay := false, numStreams := 1, bufsize := 0, blksize := DEFAULT_TCP_BLKSIZE);
      o := o.(rate := 0, burst := 0, mss := 0, counters64 := 0);
    }

    method SetRole(client: bool)
      modifies this
      ensures o == old(o).(sender := client != old(o).reverse)
    {
      o := o.(sender := client);
      if o.reverse {
        o := o.(sender := !o.sender);
      }
    }

    method SetReverse(reverse: bool)
      modifies this
      ensures o == old(o).(reverse := reverse, sender := old(o).sender != reverse)
    {
      o := o.(reverse := reverse);
      if o.reverse {
        o := o.(sender := !o.sender);
      }
    }

    /** False if JSON_write failed. */
    method SendParameters(conn: Connection) returns (ok: bool)
      requires InRange(o)
      modifies conn`outgoing, conn`failure
      ensures conn.reliable ==> conn.outgoing == old(conn.outgoing) + Frame(J.Text(ParameterTree(o), 0, false))
      ensures conn.reliable ==> (ok <==> Size(J.Text(ParameterTree(o), 0, false)) <= INT_MAX)
    {
      hide J.Text, J.Printable, Frame, InRange;
      var j := BuildParameters(o);
      TreePrintable(o);
      var r, _, _, _, _ := conn.JsonWrite(J.Object(j));
      ok := r >= 0;
    }

    static method BuildParameters(o: Options) returns (j: seq<J.Member>)
      ensures j == Entries(o, KEYS)
    {
      hide Entries, Nth;
      NoEntries(o);
      j := [];
      j := AddProtocol(o, j);
      j := AddLimits(o, j);
      j := AddShape(o, j);
      j := AddPace(o, j);
      j := AddTexts(o, j);
      j := AddFlags(o, j);
    }

    /** The members up to "server_affinity". */
    static method AddProtocol(o: Options, before: seq<J.Member>) returns (j: seq<J.Member>)
      requires before == Entries(o, Rank(TcpKey))
      ensures j == Entries(o, Rank(ServerAffinity) + 1)
    {
      hide Entries, Name, Nth;
      j := before;
      j := AddIf(j, TcpKey, o.protocol == Tcp, J.True, o);
      j := AddIf(j, UdpKey, o.protocol == Udp, J.True, o);
      j := AddIf(j, SctpKey, false, J.True, o);
      j := AddIf(j, Omit, true, J.Int(o.omit), o);
      j := AddIf(j, ServerAffinity, o.serverAffinity != -1, J.Int(o.serverAffinity), o);
    }

    /** Up to "nodelay". */
    static method AddLimits(o: Options, before: seq<J.Member>) returns (j: seq<J.Member>)
      requires before == Entries(o, Rank(Time))
      ensures j == Entries(o, Rank(NoDelay) + 1)
    {
      hide Entries, Name, Nth;
      j := before;
      j := AddIf(j, Time, o.duration != 0, J.Int(o.duration), o);
      j := AddIf(j, Num, o.bytes != 0, J.Int(o.bytes), o);
      j := AddIf(j, BlockCount, o.blocks != 0, J.Int(o.blocks), o);
      j := AddIf(j, Mss, o.mss != 0, J.Int(o.mss), o);
      j := AddIf(j, NoDelay, o.noDelay, J.True, o);
    }

    /** Up to "len". */
    static method AddShape(o: Options, before: seq<J.Member>) returns (j: seq<J.Member>)
      requires before == Entries(o, Rank(Parallel))
      ensures j == Entries(o, Rank(Len) + 1)
    {
      hide Entries, Name, Nth;
      j := before;
      j := AddIf(j, Parallel, true, J.Int(o.numStreams), o);
      j := AddIf(j, Reverse, o.reverse, J.True, o);
      j := AddIf(j, Window, o.bufsize != 0, J.Int(o.bufsize), o);
      j := AddIf(j, Len, o.blksize != 0, J.Int(o.blksize), o);
    }

    /** Up to "TOS". */
    static method AddPace(o: Options, before: seq<J.Member>) returns (j: seq<J.Member>)
      requires before == Entries(o, Rank(Bandwidth))
      ensures j == Entries(o, Rank(Tos) + 1)
    {
      hide Entries, Name, Nth;
      j := before;
      j := AddIf(j, Bandwidth, o.rate != 0, J.Int(o.rate), o);
      j := AddIf(j, Burst, o.burst != 0, J.Int(o.burst), o);
      j := AddIf(j, Tos, o.tos != 0, J.Int(o.tos), o);
    }

    /** The strings. */
    static method AddTexts(o: Options, before: seq<J.Member>) returns (j: seq<J.Member>)
      requires before == Entries(o, Rank(FlowLabel))
      ensures j == Entries(o, Rank(Congestion) + 1)
    {
      hide Entries, Name, Nth;
      j := before;
      j := AddIf(j, FlowLabel, o.flowlabel != 0, J.Int(o.flowlabel), o);
      j := AddIf(j, Title, o.title.Some?, J.String(if o.title.Some? then o.title.value else ""), o);
      j := AddIf(j, Congestion, o.congestion.Some?, J.String(if o.congestion.Some? then o.congestion.value else ""), o);
    }

    /** The remaining members. */
    static method AddFlags(o: Options, before: seq<J.Member>) returns (j: seq<J.Member>)
      requires before == Entries(o, Rank(ServerOutput))
      ensures j == Entries(o, Rank(ClientVersion) + 1)
    {
      hide Entries, Name, Nth;
      j := before;
      j := AddIf(j, ServerOutput, o.serverOutput != 0, J.Int(o.serverOutput), o);
      j := AddIf(j, Counters64, o.counters64 != 0, J.Int(o.counters64), o);
      j := AddIf(j, NoPacing, o.noPacing != 0, J.Int(o.noPacing), o);
      j := AddIf(j, ClientVersion, true, J.String("3.1.3"), o);
    }

    /** False if no tree came. */
    method GetParameters(conn: Connection) returns (ok: bool, ghost came: Option<J.Json>, overran: bool)
      requires IsBytes(conn.incoming)
      modifies this, conn`incoming, conn`failure
      ensures ok <==> came.Some?
      ensures o == if ok then Received(old(o), came.value) else old(o)
      ensures conn.reliable ==> (overran <==> Overruns(old(conn.incoming)))
      ensures conn.reliable && !overran ==> (came, conn.incoming) == ReadFrame(old(conn.incoming))
    {
      hide ReadFrame, JsonNames.Named, Received;
      var json, past, _ := conn.JsonRead();
      came, overran := json, past;
      if json == None {
        return false, json, past;
      }
      o := Take(json.value, o);
      ok := true;
    }

    /** The fields, one by one. */
    static method Take(j: J.Json, o: Options) returns (r: Options)
      requires JsonNames.Named(j)
      ensures r == Received(o, j)
    {
      hide JsonNames.Named, Given, Int32Of, Uint64Of, StringOf, FlagOf;
      var protocol, sender, noDelay, reverse := o.protocol, o.sender, o.noDelay, o.reverse;
      var tcp := Has(j, TcpKey);
      if tcp {
        protocol := Tcp;
      }
      var udp := Has(j, UdpKey);
      if udp {
        protocol := Udp;
      }
      var omit := TakeInt32(j, Omit, o.omit);
      var serverAffinity := TakeInt32(j, ServerAffinity, o.serverAffinity);
      var duration := TakeInt32(j, Time, o.duration);
      var bytes := TakeUint64(j, Num, o.bytes);
      var blocks := TakeUint64(j, BlockCount, o.blocks);
      var mss := TakeInt32(j, Mss, o.mss);
      var nodelay := Has(j, NoDelay);
      if nodelay {
        noDelay := true;
      }
      var numStreams := TakeInt32(j, Parallel, o.numStreams);
      var reversed := Has(j, Reverse);
      if reversed {
        sender, reverse := !sender, true;
      }
      var bufsize := TakeInt32(j, Window, o.bufsize);
      var blksize := TakeInt32(j, Len, o.blksize);
      var rate := TakeUint64(j, Bandwidth, o.rate);
      var burst := TakeInt32(j, Burst, o.burst);
      var tos := TakeInt32(j, Tos, o.tos);
      var flowlabel := TakeInt32(j, FlowLabel, o.flowlabel);
      var title := TakeString(j, Title, o.title);
      var congestion := TakeString(j, Congestion, o.congestion);
      var serverOutput := TakeFlag(j, ServerOutput, o.serverOutput);
      var counters64 := TakeFlag(j, Counters64, o.counters64);
      var noPacing := TakeFlag(j, NoPacing, o.noPacing);
      r := Options(protocol, sender, omit, serverAffinity, duration, bytes, blocks, mss, noDelay, numStreams, reverse,
                   bufsize, blksize, rate, burst, tos, flowlabel, title, congestion, serverOutput, counters64,
                   noPacing);
    }
  }
}
