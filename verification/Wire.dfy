/**
 The items of the control protocol as bytes.  The cookie has no length, a state is one byte and a frame names its own
 length, so a reader has to know what comes; that it does is what the protocol's invariant says.
 */
module Wire {
  import opened CInt
  import opened CText
  import opened ControlFrame
  import opened ObjectItems
  import opened Parameters
  import opened Protocol
  import opened ProtocolSpec
  import opened Wrappers
  import J = Json
  import ParameterExchange
  import R = Results

  // A cookie and its terminator.
  const COOKIE_SIZE: nat := 37

  /** Items whose parameters and results are the trees that are printed. */
  type Packet = Item<J.Json, J.Json>

  /** The number of streams a server reads from the parameters. */
  function StreamsOf(params: J.Json): int {
    ParameterExchange.Int32Of(params, Parallel, 1)
  }

  /** What is sent of it can be printed, in fewer than 2^31 characters. */
  ghost predicate Sendable(item: Packet) {
    match item
    case Hello(cookie) => IsCString(cookie) && |cookie| == COOKIE_SIZE - 1
    case Code(code) => -128 <= code <= 127
    case Parameters(params, streams) =>
      J.Printable(params) && |J.Text(params, 0, false)| <= INT_MAX && streams == StreamsOf(J.Conveyed(params))
    case Results(results) => J.Printable(results) && |J.Text(results, 0, false)| <= INT_MAX
  }

  /** What arrives of it. */
  function Arriving(item: Packet): Packet {
    match item
    case Parameters(params, streams) => Parameters(J.Conveyed(params), streams)
    case Results(results) => Results(J.Conveyed(results))
    case _ => item
  }

  function Bytes(item: Packet): string {
    match item
    case Hello(cookie) => cookie + [0 as char]
    case Code(code) => [(code % 256) as char]
    case Parameters(params, _) => Frame(J.Text(params, 0, false))
    case Results(results) => Frame(J.Text(results, 0, false))
  }

  // ---- readers ----

  datatype Reader = CookieReader | StateReader | ParametersReader | ResultsReader

  /** What a reader makes of the stream, and what it leaves of it. */
  function Read(reader: Reader, stream: string): (Option<Packet>, string) {
    match reader
    case CookieReader =>
      if |stream| < COOKIE_SIZE then (None, "")
      else (Some(Hello(UpToNul(stream[..COOKIE_SIZE]))), stream[COOKIE_SIZE..])
    case StateReader =>
      if stream == "" then (None, "") else (Some(Code(SignedChar(stream[0]))), stream[1..])
    case ParametersReader =>
      var (json, rest) := ReadFrame(stream);
      (if json.Some? then Some(Parameters(json.value, StreamsOf(json.value))) else None, rest)
    case ResultsReader =>
      var (json, rest) := ReadFrame(stream);
      (if json.Some? then Some(Results(json.value)) else None, rest)
  }

  function SignedChar(c: char): int {
    if Octet(c) < 128 then Octet(c) else Octet(c) - 256
  }

  function ReaderOf(item: Packet): Reader {
    match item
    case Hello(_) => CookieReader
    case Code(_) => StateReader
    case Parameters(_, _) => ParametersReader
    case Results(_) => ResultsReader
  }

  /** The right reader reads the item, and nothing behind it. */
  lemma ReadBack(item: Packet, rest: string)
    requires Sendable(item)
    ensures Read(ReaderOf(item), Bytes(item) + rest) == (Some(Arriving(item)), rest)
  {
    hide Frame, ReadFrame, J.Text, J.Printable, J.Conveyed, StreamsOf, UpToNul;
    match item
    case Hello(cookie) =>
      assert (Bytes(item) + rest)[..COOKIE_SIZE] == Bytes(item);
      CStringUpToNul(cookie);
      UpToNulOfTerminated(cookie);
    case Code(_) =>
    case Parameters(params, _) => FrameRoundTrip(params, rest);
    case Results(results) => FrameRoundTrip(results, rest);
  }

  lemma FirstOctet(n: nat)
    requires n < 0x100_0000
    ensures BigEndian(n)[0] == 0 as char
  {
    assert n / 256 / 256 < 256;
  }

  /** A side that reads a state where a frame shorter than 2^24 comes finds the code 0, which neither side knows: it
      gives up. */
  lemma WrongReader(item: Packet, rest: string, cl: Client<J.Json, J.Json>, sv: Server<J.Json, J.Json>)
    requires Sendable(item) && ReaderOf(item) in {ParametersReader, ResultsReader} && |Bytes(item)| < 4 + 0x100_0000
    ensures Read(StateReader, Bytes(item) + rest).0 == Some(Code(0))
    ensures OnClientCode(cl, 0).place.ClientBroken? && OnServerCode(sv, 0).place.Broken?
  {
    hide J.Text, J.Printable, BigEndian;
    var text := J.Text(if item.Parameters? then item.params else item.results, 0, false);
    assert |Bytes(item)| == 4 + |text|;
    FirstOctet(|text|);
    assert Bytes(item)[0] == BigEndian(|text|)[0];
  }

  // ---- the queues of the protocol ----

  ghost predicate AllSendable(items: seq<Packet>) {
    forall item <- items :: Sendable(item)
  }

  function BytesOf(items: seq<Packet>): string {
    if items == [] then "" else Bytes(items[0]) + BytesOf(items[1..])
  }

  /** What a side reads next, where it stands. */
  function ServerReader(place: ServerPlace): Reader {
    match place
    case ReadingCookie => CookieReader
    case ReadingParameters => ParametersReader
    case ReadingResults => ResultsReader
    case _ => StateReader
  }

  function ClientReader(place: ClientPlace): Reader {
    if place.AwaitingResults? then ResultsReader else StateReader
  }

  /** What the parameters and results of both sides have to be. */
  ghost predicate Prepared(sys: System<J.Json, J.Json>) {
    && Sendable(Hello(sys.cl.cookie)) && Sendable(Parameters(sys.cl.params, sys.cl.numStreams))
    && Sendable(Results(sys.cl.own)) && Sendable(Results(sys.sv.own))
  }

  lemma ScriptsSendable(sys: System<J.Json, J.Json>)
    requires Inv(sys) && Prepared(sys)
    ensures AllSendable(ToServer(sys)) && AllSendable(ToClient(sys))
  {
    hide Ordinary, Sendable;
    CodesSendable();
    if sys.sv.place.Occupied? {
      return;
    }
    SentIsScript(sys);
    var mine, theirs := ClientScript(sys.cl), ServerScript(sys.sv);
    forall k | 0 <= k < |ToServer(sys)| ensures Sendable(ToServer(sys)[k]) {
      assert ToServer(sys)[k] == mine[sys.svRead + k];
    }
    forall k | 0 <= k < |ToClient(sys)| ensures Sendable(ToClient(sys)[k]) {
      assert ToClient(sys)[k] == theirs[sys.clRead + k];
    }
  }

  lemma SentIsScript(sys: System<J.Json, J.Json>)
    requires Inv(sys) && !sys.sv.place.Occupied?
    ensures sys.svRead <= |sys.cl.sent| <= 5 && sys.cl.sent == ClientScript(sys.cl)[..|sys.cl.sent|]
    ensures sys.clRead <= |sys.sv.sent| <= 7 && sys.sv.sent == ServerScript(sys.sv)[..|sys.sv.sent|]
  {
  }

  lemma CodesSendable()
    ensures forall code :: -128 <= code <= 127 ==> Sendable(Code(code))
  {
  }

  /** The read gives the first item of a queue and leaves the bytes of those behind it. */
  ghost predicate InStep(reader: Reader, queue: seq<Packet>) {
    queue != [] ==> Read(reader, BytesOf(queue)) == (Some(Arriving(queue[0])), BytesOf(queue[1..]))
  }

  lemma ReadsFirst(queue: seq<Packet>)
    requires AllSendable(queue) && queue != []
    ensures InStep(ReaderOf(queue[0]), queue)
  {
    hide Sendable, Read, Bytes, Arriving;
    assert queue[0] in queue;
    ReadBack(queue[0], BytesOf(queue[1..]));
  }

  lemma ServerExpects(sys: System<J.Json, J.Json>)
    requires Inv(sys) && Enabled(sys, ServerReads)
    ensures sys.svRead <= |sys.cl.sent| && ToServer(sys) != []
    ensures ReaderOf(ToServer(sys)[0]) == ServerReader(sys.sv.place)
  {
    Synchronised(sys);
    hide Inv;
  }

  lemma ClientExpects(sys: System<J.Json, J.Json>)
    requires Inv(sys) && Enabled(sys, ClientReads)
    ensures sys.clRead <= |sys.sv.sent| && ToClient(sys) != []
    ensures ReaderOf(ToClient(sys)[0]) == ClientReader(sys.cl.place)
  {
    Synchronised(sys);
    hide Inv;
  }

  /** In every reachable state the bytes on their way to a side that is ready to read begin with what it is about to
      read. */
  lemma BytesInStep(sys: System<J.Json, J.Json>)
    requires Inv(sys) && Prepared(sys)
    ensures Enabled(sys, ServerReads) ==> InStep(ServerReader(sys.sv.place), ToServer(sys))
    ensures Enabled(sys, ClientReads) ==> InStep(ClientReader(sys.cl.place), ToClient(sys))
  {
    hide Ordinary, Preempted, InStep, Prepared, AllSendable, Enabled, ReaderOf, ServerReader, ClientReader;
    ScriptsSendable(sys);
    if Enabled(sys, ServerReads) {
      ServerExpects(sys);
      ReadsFirst(ToServer(sys));
    }
    if Enabled(sys, ClientReads) {
      ClientExpects(sys);
      ReadsFirst(ToClient(sys));
    }
  }

  /** Options in range make parameters that can be sent, with the client's number of streams. */
  lemma OptionsSendable(o: Options)
    requires InRange(o) && |J.Text(ParameterTree(o), 0, false)| <= INT_MAX
    ensures Sendable(Parameters(ParameterTree(o), o.numStreams))
    ensures Arriving(Parameters(ParameterTree(o), o.numStreams)) == Parameters(ParameterTree(o), o.numStreams)
  {
    hide ParameterTree, J.Text, J.Conveyed;
    ParameterExchange.TreePrintable(o);
    J.ConveyedExact(ParameterTree(o));
    ParameterExchange.Int32Received(o, Parallel, true, o.numStreams, 1);
  }

  /** The results of a test can be sent, whatever its CPU use and jitter. */
  lemma ResultsSendable(side: R.Side)
    requires R.Printed(side) && R.AllCountable(side) && |J.Text(R.ResultTree(side), 0, false)| <= INT_MAX
    ensures Sendable(Results(R.ResultTree(side)))
  {
    hide R.ResultTree, J.Text;
    R.ResultsPrintable(side);
  }
}
