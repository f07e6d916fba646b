/**
 The two ends of the exchange of parameters as they run on a test, and when they agree afterwards.
 */
module ParameterExchange {
  import opened CInt
  import opened CText
  import opened ControlFrame
  import opened Numerals
  import opened ObjectItems
  import opened Parameters
  import opened Wrappers
  import J = Json
  import JsonNames

  // ---- what a server makes of the object ----

  predicate Given(j: J.Json, key: Key) {
    Lookup(j, Name(key)).Some?
  }

  function Int32Of(j: J.Json, key: Key, kept: int): int {
    if Given(j, key) then ToInt32(ValueInt(Lookup(j, Name(key)).value)) else kept
  }

  function Uint64Of(j: J.Json, key: Key, kept: nat): nat {
    if Given(j, key) then ToUint64(ValueInt(Lookup(j, Name(key)).value)) else kept
  }

  function StringOf(j: J.Json, key: Key, kept: Option<string>): Option<string> {
    if !Given(j, key) then kept
    else if Lookup(j, Name(key)).value.String? then Some(Lookup(j, Name(key)).value.str)
    else None
  }

  function FlagOf(j: J.Json, key: Key, kept: int): int {
    if Given(j, key) then 1 else kept
  }

  /** The fields after get_parameters: what the object does not have stays as it was. */
  function Received(o: Options, j: J.Json): Options {
    Options(if Given(j, UdpKey) then Udp else if Given(j, TcpKey) then Tcp else o.protocol,
            o.sender != Given(j, Reverse),
            Int32Of(j, Omit, o.omit),
            Int32Of(j, ServerAffinity, o.serverAffinity),
            Int32Of(j, Time, o.duration),
            Uint64Of(j, Num, o.bytes),
            Uint64Of(j, BlockCount, o.blocks),
            Int32Of(j, Mss, o.mss),
            Given(j, NoDelay) || o.noDelay,
            Int32Of(j, Parallel, o.numStreams),
            Given(j, Reverse) || o.reverse,
            Int32Of(j, Window, o.bufsize),
            Int32Of(j, Len, o.blksize),
            Uint64Of(j, Bandwidth, o.rate),
            Int32Of(j, Burst, o.burst),
            Int32Of(j, Tos, o.tos),
            Int32Of(j, FlowLabel, o.flowlabel),
            StringOf(j, Title, o.title),
            StringOf(j, Congestion, o.congestion),
            FlagOf(j, ServerOutput, o.serverOutput),
            FlagOf(j, Counters64, o.counters64),
            FlagOf(j, NoPacing, o.noPacing))
  }

  // ---- agreement ----

  /** Both sides run the same test; flags agree on being set. */
  predicate Agree(cl: Options, sv: Options) {
    && sv.protocol == cl.protocol && sv.omit == cl.omit && sv.serverAffinity == cl.serverAffinity
    && sv.duration == cl.duration && sv.bytes == cl.bytes && sv.blocks == cl.blocks && sv.mss == cl.mss
    && sv.noDelay == cl.noDelay && sv.numStreams == cl.numStreams && sv.reverse == cl.reverse
    && sv.bufsize == cl.bufsize && sv.blksize == cl.blksize && sv.rate == cl.rate && sv.burst == cl.burst
    && sv.tos == cl.tos && sv.flowlabel == cl.flowlabel && sv.title == cl.title && sv.congestion == cl.congestion
    && (sv.serverOutput != 0 <==> cl.serverOutput != 0) && (sv.counters64 != 0 <==> cl.counters64 != 0)
    && (sv.noPacing != 0 <==> cl.noPacing != 0)
  }

  /** What is not sent must be there already. */
  predicate Complements(cl: Options, sv: Options) {
    && (cl.serverAffinity == -1 ==> sv.serverAffinity == -1)
    && (cl.duration == 0 ==> sv.duration == 0) && (cl.bytes == 0 ==> sv.bytes == 0)
    && (cl.blocks == 0 ==> sv.blocks == 0) && (cl.mss == 0 ==> sv.mss == 0)
    && (!cl.noDelay ==> !sv.noDelay) && (!cl.reverse ==> !sv.reverse)
    && (cl.bufsize == 0 ==> sv.bufsize == 0) && (cl.blksize == 0 ==> sv.blksize == 0)
    && (cl.rate == 0 ==> sv.rate == 0) && (cl.burst == 0 ==> sv.burst == 0) && (cl.tos == 0 ==> sv.tos == 0)
    && (cl.flowlabel == 0 ==> sv.flowlabel == 0)
    && (cl.title == None ==> sv.title == None) && (cl.congestion == None ==> sv.congestion == None)
    && (cl.serverOutput == 0 ==> sv.serverOutput == 0) && (cl.counters64 == 0 ==> sv.counters64 == 0)
    && (cl.noPacing == 0 ==> sv.noPacing == 0)
  }

  lemma Int32Received(cl: Options, key: Key, sent: bool, n: int, kept: int)
    requires Sent(cl, key) == When(sent, J.Int(n)) && IsInt32(n)
    ensures Int32Of(ParameterTree(cl), key, kept) == if sent then n else kept
  {
    hide ParameterTree, Name, ValueInt, Sent;
    ItemSent(cl, key);
    ValueOfInt(n);
  }

  lemma Uint64Received(cl: Options, key: Key, n: nat, kept: nat)
    requires Sent(cl, key) == When(n != 0, J.Int(n)) && n <= EXACT_MAX
    ensures Uint64Of(ParameterTree(cl), key, kept) == if n != 0 then n else kept
  {
    hide ParameterTree, Name, ValueInt, Sent;
    ItemSent(cl, key);
    ValueOfInt(n);
  }

  lemma ReceivedTest(cl: Options, sv: Options)
    requires InRange(cl)
    ensures var r := Received(sv, ParameterTree(cl));
            && r.protocol == cl.protocol && r.omit == cl.omit && r.numStreams == cl.numStreams
            && r.serverAffinity == (if cl.serverAffinity != -1 then cl.serverAffinity else sv.serverAffinity)
            && r.duration == (if cl.duration != 0 then cl.duration else sv.duration)
            && r.mss == (if cl.mss != 0 then cl.mss else sv.mss)
            && r.bufsize == (if cl.bufsize != 0 then cl.bufsize else sv.bufsize)
  {
    hide ParameterTree, Int32Of, Uint64Of, StringOf, FlagOf, Name, Lookup, IfSet;
    Int32Received(cl, Omit, true, cl.omit, sv.omit);
    Int32Received(cl, Parallel, true, cl.numStreams, sv.numStreams);
    Int32Received(cl, ServerAffinity, cl.serverAffinity != -1, cl.serverAffinity, sv.serverAffinity);
    Int32Received(cl, Time, cl.duration != 0, cl.duration, sv.duration);
    Int32Received(cl, Mss, cl.mss != 0, cl.mss, sv.mss);
    Int32Received(cl, Window, cl.bufsize != 0, cl.bufsize, sv.bufsize);
    ItemSent(cl, TcpKey);
    ItemSent(cl, UdpKey);
  }

  lemma ReceivedLimits(cl: Options, sv: Options)
    requires InRange(cl)
    ensures var r := Received(sv, ParameterTree(cl));
            && r.bytes == (if cl.bytes != 0 then cl.bytes else sv.bytes)
            && r.blocks == (if cl.blocks != 0 then cl.blocks else sv.blocks)
            && r.blksize == (if cl.blksize != 0 then cl.blksize else sv.blksize)
            && r.rate == (if cl.rate != 0 then cl.rate else sv.rate)
            && r.burst == (if cl.burst != 0 then cl.burst else sv.burst)
            && r.tos == (if cl.tos != 0 then cl.tos else sv.tos)
            && r.flowlabel == (if cl.flowlabel != 0 then cl.flowlabel else sv.flowlabel)
  {
    hide ParameterTree, Int32Of, Uint64Of, StringOf, FlagOf, Name, Lookup, IfSet;
    Uint64Received(cl, Num, cl.bytes, sv.bytes);
    Uint64Received(cl, BlockCount, cl.blocks, sv.blocks);
    Uint64Received(cl, Bandwidth, cl.rate, sv.rate);
    Int32Received(cl, Len, cl.blksize != 0, cl.blksize, sv.blksize);
    Int32Received(cl, Burst, cl.burst != 0, cl.burst, sv.burst);
    Int32Received(cl, Tos, cl.tos != 0, cl.tos, sv.tos);
    Int32Received(cl, FlowLabel, cl.flowlabel != 0, cl.flowlabel, sv.flowlabel);
  }

  lemma ReceivedFlags(cl: Options, sv: Options)
    ensures var r := Received(sv, ParameterTree(cl));
            && r.sender == (sv.sender != cl.reverse)
            && r.noDelay == (cl.noDelay || sv.noDelay) && r.reverse == (cl.reverse || sv.reverse)
            && r.title == (if cl.title.Some? then cl.title else sv.title)
            && r.congestion == (if cl.congestion.Some? then cl.congestion else sv.congestion)
            && r.serverOutput == (if cl.serverOutput != 0 then 1 else sv.serverOutput)
            && r.counters64 == (if cl.counters64 != 0 then 1 else sv.counters64)
            && r.noPacing == (if cl.noPacing != 0 then 1 else sv.noPacing)
  {
    hide ParameterTree, Int32Of, Uint64Of, Name, Lookup;
    ItemSent(cl, Reverse);
    ItemSent(cl, NoDelay);
    ItemSent(cl, Title);
    ItemSent(cl, Congestion);
    ItemSent(cl, ServerOutput);
    ItemSent(cl, Counters64);
    ItemSent(cl, NoPacing);
  }

  /** Each field after the exchange is the client's if it was sent, and the server's own if not. */
  lemma AgreementIffComplements(cl: Options, sv: Options)
    requires InRange(cl)
    ensures Agree(cl, Received(sv, ParameterTree(cl))) <==> Complements(cl, sv)
  {
    hide ParameterTree, Received, InRange;
    ReceivedTest(cl, sv);
    ReceivedLimits(cl, sv);
    ReceivedFlags(cl, sv);
  }

  /** From the client's connection to the server's fields, whatever the server: the frame is read to its end and not
      further, and the two agree exactly if the server already has what was not sent. */
  lemma ParametersArrive(cl: Options, sv: Options, rest: string)
    requires InRange(cl) && |J.Text(ParameterTree(cl), 0, false)| < WIDTH
    ensures var (json, left) := ReadFrame(Frame(J.Text(ParameterTree(cl), 0, false)) + rest);
            && left == rest && (json.Some? <==> |J.Text(ParameterTree(cl), 0, false)| <= INT_MAX)
            && (json.Some? ==>
                  && json.value == ParameterTree(cl)
                  && (Agree(cl, Received(sv, json.value)) <==> Complements(cl, sv))
                  && Received(sv, json.value).sender == (sv.sender != cl.reverse))
  {
    TreePrintable(cl);
    FrameRoundTrip(ParameterTree(cl), rest);
    J.ConveyedExact(ParameterTree(cl));
    hide J.Conveyed, J.Text, ParameterTree, ReadFrame, Frame, Received, J.Printable, Agree, Complements;
    AgreementIffComplements(cl, sv);
    ReceivedFlags(cl, sv);
  }

  lemma TreePrintable(cl: Options)
    requires InRange(cl)
    ensures J.Printable(ParameterTree(cl)) && J.Exact(ParameterTree(cl))
  {
    EntriesPrintable(cl, KEYS);
  }

  /** A server that has just started agrees with every client whose duration and block size are not zero, and with no
      other; and it sends if and only if the client told it to reverse the direction. */
  lemma FreshServerAgrees(cl: Options)
    requires InRange(cl)
    ensures Agree(cl, Received(DEFAULTS, ParameterTree(cl))) <==> cl.duration != 0 && cl.blksize != 0
    ensures Received(DEFAULTS, ParameterTree(cl)).sender == cl.reverse
  {
    hide ParameterTree, Received, Agree;
    AgreementIffComplements(cl, DEFAULTS);
    ReceivedFlags(cl, DEFAULTS);
  }

  /** A server that has served another client agrees only if, besides, everything that iperf_reset_test leaves is
      overwritten, or was not set. */
  lemma UsedServerAgrees(cl: Options, sv: Options)
    requires InRange(cl)
    ensures Agree(cl, Received(Reset(sv), ParameterTree(cl))) <==>
              && cl.duration != 0 && cl.blksize != 0
              && (cl.bytes != 0 || sv.bytes == 0) && (cl.blocks != 0 || sv.blocks == 0)
              && (cl.tos != 0 || sv.tos == 0) && (cl.flowlabel != 0 || sv.flowlabel == 0)
              && (cl.title.Some? || sv.title == None) && (cl.congestion.Some? || sv.congestion == None)
              && (cl.serverOutput != 0 || sv.serverOutput == 0) && (cl.noPacing != 0 || sv.noPacing == 0)
  {
    hide ParameterTree, Received, Agree;
    AgreementIffComplements(cl, Reset(sv));
  }

  /** So the byte limit of one client can end the test of the next. */
  lemma LimitOutlivesItsClient()
    ensures var first, second := DEFAULTS.(bytes := 1000), DEFAULTS;
            Received(Reset(Received(DEFAULTS, ParameterTree(first))), ParameterTree(second)).bytes == 1000
  {
    hide ParameterTree, Received;
    var first, second := DEFAULTS.(bytes := 1000), DEFAULTS;
    ReceivedLimits(first, DEFAULTS);
    ReceivedLimits(second, Reset(Received(DEFAULTS, ParameterTree(first))));
  }

  // ---- who sends ----

  datatype Call = SetClient | SetReverse

  /** iperf_set_test_role(test, 'c') and iperf_set_test_reverse(test, 1), on the pair (sender, reverse). */
  function Called(test: (bool, bool), call: Call): (bool, bool) {
    match call
    case SetClient => (!test.1, test.1)
    case SetReverse => (!test.0, true)
  }

  function CalledAll(test: (bool, bool), calls: seq<Call>): (bool, bool)
    decreases |calls|
  {
    if calls == [] then test else Called(CalledAll(test, calls[..|calls| - 1]), calls[|calls| - 1])
  }

  lemma {:induction false} ReverseIsSticky(test: (bool, bool), calls: seq<Call>)
    ensures CalledAll(test, calls).1 == (test.1 || SetReverse in calls)
    decreases |calls|
  {
    if calls != [] {
      assert calls == calls[..|calls| - 1] + [calls[|calls| - 1]];
      ReverseIsSticky(test, calls[..|calls| - 1]);
    }
  }

  /** -c, after whatever options, and n times -R after it. */
  lemma {:induction false} ReversedTimes(before: seq<Call>, n: nat)
    ensures var test := CalledAll((false, false), before + [SetClient] + seq(n, _ => SetReverse));
            && test.1 == (SetReverse in before || n > 0)
            && (test.0 <==> if SetReverse in before then n % 2 == 1 else n % 2 == 0)
    decreases n
  {
    var calls := before + [SetClient] + seq(n, _ => SetReverse);
    if n == 0 {
      assert calls[..|calls| - 1] == before;
      ReverseIsSticky((false, false), before);
    } else {
      assert calls[..|calls| - 1] == before + [SetClient] + seq(n - 1, _ => SetReverse);
      assert calls[|calls| - 1] == SetReverse;
      ReversedTimes(before, n - 1);
    }
  }

  /** Exactly one of the two sides sends if and only if -R was given an even number of times after -c when it was also
      given before, and not at all or an odd number of times when it was not. */
  lemma OneSender(before: seq<Call>, n: nat, cl: Options)
    requires (cl.sender, cl.reverse) == CalledAll((false, false), before + [SetClient] + seq(n, _ => SetReverse))
    ensures Received(DEFAULTS, ParameterTree(cl)).sender == !cl.sender <==>
              if SetReverse in before then n % 2 == 0 else n == 0 || n % 2 == 1
  {
    hide ParameterTree, Received, CalledAll;
    ReversedTimes(before, n);
    ReceivedFlags(cl, DEFAULTS);
  }
}
