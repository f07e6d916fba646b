/**
 The exchange of parameters (iperf_api.c, send_parameters and get_parameters): which fields of the client's test the
 server ends up with, starting from any server.
 */
module Parameters {
  import opened CInt
  import opened CText
  import opened Json
  import opened Numerals
  import opened ControlFrame
  import opened ObjectItems
  import opened Wrappers
  import JsonNames

  const DURATION := 10
  const DEFAULT_TCP_BLKSIZE := 128 * 1024

  datatype Transport = Tcp | Udp

  /** The fields of a test that the exchange reads or writes. */
  datatype Options = Options(
    protocol: Transport,
    sender: bool,
    omit: int,
    serverAffinity: int,
    duration: int,
    bytes: nat,
    blocks: nat,
    mss: int,
    noDelay: bool,
    numStreams: int,
    reverse: bool,
    bufsize: int,
    blksize: int,
    rate: nat,
    burst: int,
    tos: int,
    flowlabel: int,
    title: Option<string>,
    congestion: Option<string>,
    serverOutput: int,
    counters64: int,
    noPacing: int)

  /** iperf_defaults, with the role of a server. */
  const DEFAULTS: Options :=
    Options(Tcp, false, 0, -1, DURATION, 0, 0, 0, false, 1, false, 0, DEFAULT_TCP_BLKSIZE, 0, 0, 0, 0, None, None,
            0, 0, 0)

  /** iperf_reset_test, which a server goes through between two clients: some fields stay. */
  function Reset(o: Options): Options {
    DEFAULTS.(bytes := o.bytes, blocks := o.blocks, tos := o.tos, flowlabel := o.flowlabel, title := o.title,
              congestion := o.congestion, serverOutput := o.serverOutput, noPacing := o.noPacing)
  }

  // ---- ranges ----

  /** What the types of the fields say, with counts that a double holds exactly. */
  predicate InRange(o: Options) {
    && IsInt32(o.omit) && IsInt32(o.serverAffinity) && IsInt32(o.duration) && IsInt32(o.mss) && IsInt32(o.numStreams)
    && IsInt32(o.bufsize) && IsInt32(o.blksize) && IsInt32(o.burst) && IsInt32(o.tos) && IsInt32(o.flowlabel)
    && IsInt32(o.serverOutput) && IsInt32(o.counters64) && IsInt32(o.noPacing)
    && o.bytes <= EXACT_MAX && o.blocks <= EXACT_MAX && o.rate <= EXACT_MAX
    && (o.title.Some? ==> IsCString(o.title.value)) && (o.congestion.Some? ==> IsCString(o.congestion.value))
  }

  // ---- the object sent ----

  datatype Key =
    | TcpKey | UdpKey | SctpKey | Omit | ServerAffinity | Time | Num | BlockCount | Mss | NoDelay | Parallel | Reverse
    | Window | Len | Bandwidth | Burst | Tos | FlowLabel | Title | Congestion | ServerOutput | Counters64 | NoPacing
    | ClientVersion

  function Name(key: Key): string {
    match key
    case TcpKey => "tcp"
    case UdpKey => "udp"
    case SctpKey => "sctp"
    case Omit => "omit"
    case ServerAffinity => "server_affinity"
    case Time => "time"
    case Num => "num"
    case BlockCount => "blockcount"
    case Mss => "MSS"
    case NoDelay => "nodelay"
    case Parallel => "parallel"
    case Reverse => "reverse"
    case Window => "window"
    case Len => "len"
    case Bandwidth => "bandwidth"
    case Burst => "burst"
    case Tos => "TOS"
    case FlowLabel => "flowlabel"
    case Title => "title"
    case Congestion => "congestion"
    case ServerOutput => "get_server_output"
    case Counters64 => "udp_counters_64bit"
    case NoPacing => "no_fq_socket_pacing"
    case ClientVersion => "client_version"
  }

  const KEYS: nat := 24

  /** The keys in the order in which their members are added; there is no SCTP in this build. */
  function Nth(i: nat): Key {
    match i
    case 0 => TcpKey
    case 1 => UdpKey
    case 2 => SctpKey
    case 3 => Omit
    case 4 => ServerAffinity
    case 5 => Time
    case 6 => Num
    case 7 => BlockCount
    case 8 => Mss
    case 9 => NoDelay
    case 10 => Parallel
    case 11 => Reverse
    case 12 => Window
    case 13 => Len
    case 14 => Bandwidth
    case 15 => Burst
    case 16 => Tos
    case 17 => FlowLabel
    case 18 => Title
    case 19 => Congestion
    case 20 => ServerOutput
    case 21 => Counters64
    case 22 => NoPacing
    case _ => ClientVersion
  }

  function Rank(key: Key): (i: nat)
    ensures i < KEYS && Nth(i) == key
  {
    match key
    case TcpKey => 0
    case UdpKey => 1
    case SctpKey => 2
    case Omit => 3
    case ServerAffinity => 4
    case Time => 5
    case Num => 6
    case BlockCount => 7
    case Mss => 8
    case NoDelay => 9
    case Parallel => 10
    case Reverse => 11
    case Window => 12
    case Len => 13
    case Bandwidth => 14
    case Burst => 15
    case Tos => 16
    case FlowLabel => 17
    case Title => 18
    case Congestion => 19
    case ServerOutput => 20
    case Counters64 => 21
    case NoPacing => 22
    case ClientVersion => 23
  }

  lemma RankOfNth(i: nat)
    requires i < KEYS
    ensures Rank(Nth(i)) == i
  {
  }

  function When(condition: bool, value: Json): Option<Json> {
    if condition then Some(value) else None
  }

  function IfSet(text: Option<string>): Option<Json> {
    if text.Some? then Some(String(text.value)) else None
  }

  /** What is sent under a key: most fields only if they are not zero. */
  function Sent(o: Options, key: Key): Option<Json> {
    match key
    case TcpKey => When(o.protocol == Tcp, True)
    case UdpKey => When(o.protocol == Udp, True)
    case SctpKey => None
    case Omit => Some(Int(o.omit))
    case ServerAffinity => When(o.serverAffinity != -1, Int(o.serverAffinity))
    case Time => When(o.duration != 0, Int(o.duration))
    case Num => When(o.bytes != 0, Int(o.bytes))
    case BlockCount => When(o.blocks != 0, Int(o.blocks))
    case Mss => When(o.mss != 0, Int(o.mss))
    case NoDelay => When(o.noDelay, True)
    case Parallel => Some(Int(o.numStreams))
    case Reverse => When(o.reverse, True)
    case Window => When(o.bufsize != 0, Int(o.bufsize))
    case Len => When(o.blksize != 0, Int(o.blksize))
    case Bandwidth => When(o.rate != 0, Int(o.rate))
    case Burst => When(o.burst != 0, Int(o.burst))
    case Tos => When(o.tos != 0, Int(o.tos))
    case FlowLabel => When(o.flowlabel != 0, Int(o.flowlabel))
    case Title => IfSet(o.title)
    case Congestion => IfSet(o.congestion)
    case ServerOutput => When(o.serverOutput != 0, Int(o.serverOutput))
    case Counters64 => When(o.counters64 != 0, Int(o.counters64))
    case NoPacing => When(o.noPacing != 0, Int(o.noPacing))
    case ClientVersion => Some(String("3.1.3"))
  }

  function Entry(o: Options, key: Key): seq<Member> {
    if Sent(o, key).Some? then [Member(Name(key), Sent(o, key).value)] else []
  }

  /** The members under the first n keys. */
  function Entries(o: Options, n: nat): seq<Member>
    requires n <= KEYS
  {
    if n == 0 then [] else Entries(o, n - 1) + Entry(o, Nth(n - 1))
  }

  function ParameterTree(o: Options): Json {
    Object(Entries(o, KEYS))
  }

  // ---- finding the members again ----

  /** The key a name is for, by its length and its first two letters. */
  function KeyOf(name: string): Key {
    var second := if |name| > 1 then Lower(name[1]) else ' ';
    match |name|
    case 3 => (if second == 'c' then TcpKey else if second == 'd' then UdpKey else if second == 'u' then Num
               else if second == 's' then Mss else if second == 'e' then Len else Tos)
    case 4 => (if second == 'c' then SctpKey else if second == 'm' then Omit else Time)
    case 5 => if second == 'u' then Burst else Title
    case 6 => Window
    case 7 => if second == 'o' then NoDelay else Reverse
    case 8 => Parallel
    case 9 => if second == 'a' then Bandwidth else FlowLabel
    case 10 => if second == 'l' then BlockCount else Congestion
    case 14 => ClientVersion
    case 15 => ServerAffinity
    case 17 => ServerOutput
    case 18 => Counters64
    case _ => NoPacing
  }

  lemma KeyOfName(key: Key)
    ensures KeyOf(Name(key)) == key
  {
  }

  lemma NameIsCString(key: Key)
    ensures IsCString(Name(key))
  {
    hide Name, Rank;
    if Rank(key) < 8 {
      EarlyName(key);
    } else if Rank(key) < 16 {
      MiddleName(key);
    } else {
      LateName(key);
    }
  }

  lemma EarlyName(key: Key)
    requires Rank(key) < 8
    ensures IsCString(Name(key))
  {
  }

  lemma MiddleName(key: Key)
    requires 8 <= Rank(key) < 16
    ensures IsCString(Name(key))
  {
  }

  lemma LateName(key: Key)
    requires 16 <= Rank(key)
    ensures IsCString(Name(key))
  {
  }

  /** No two keys have the same name, whatever the case of its letters. */
  lemma NamesDiffer(k1: Key, k2: Key)
    ensures SameName(Name(k1), Name(k2)) <==> k1 == k2
  {
    hide Name;
    KeyOfName(k1);
    KeyOfName(k2);
  }

  lemma {:induction false} FindEntry(o: Options, n: nat, key: Key)
    requires n <= KEYS
    ensures Find(Entries(o, n), Name(key)) == if Rank(key) < n then Sent(o, key) else None
  {
    hide Name, Sent, Find, Nth, Rank;
    if n == 0 {
      FindNone(Name(key));
    } else {
      var last := Nth(n - 1);
      RankOfNth(n - 1);
      FindEntry(o, n - 1, key);
      NamesDiffer(last, key);
      if Sent(o, last).Some? {
        FindAppended(Entries(o, n - 1), Entry(o, last)[0], Name(key));
      } else {
        assert Entries(o, n) == Entries(o, n - 1);
      }
    }
  }

  lemma FindNone(name: string)
    ensures Find([], name) == None
  {
  }

  /** Every field is found under its name, and only if it was sent. */
  lemma ItemSent(o: Options, key: Key)
    ensures Lookup(ParameterTree(o), Name(key)) == Sent(o, key)
  {
    hide Name, Entries, Rank, Sent;
    FindEntry(o, KEYS, key);
  }

  lemma {:induction false} EntriesPrintable(o: Options, n: nat)
    requires n <= KEYS && InRange(o)
    ensures forall m <- Entries(o, n) :: IsCString(m.name) && Printable(m.value) && Exact(m.value)
  {
    hide Name, Nth, Sent, InRange, Printable, Exact;
    if n > 0 {
      EntriesPrintable(o, n - 1);
      NameIsCString(Nth(n - 1));
      if Sent(o, Nth(n - 1)).Some? {
        SentPrintable(o, Nth(n - 1));
      }
    }
  }

  lemma SentPrintable(o: Options, key: Key)
    requires InRange(o) && Sent(o, key).Some?
    ensures Printable(Sent(o, key).value) && Exact(Sent(o, key).value)
  {
    hide Int, IsExact, IsFinite;
    match key
    case Omit => IntExact(o.omit);
    case ServerAffinity => IntExact(o.serverAffinity);
    case Time => IntExact(o.duration);
    case Num => IntExact(o.bytes);
    case BlockCount => IntExact(o.blocks);
    case Mss => IntExact(o.mss);
    case Parallel => IntExact(o.numStreams);
    case Window => IntExact(o.bufsize);
    case Len => IntExact(o.blksize);
    case Bandwidth => IntExact(o.rate);
    case Burst => IntExact(o.burst);
    case Tos => IntExact(o.tos);
    case FlowLabel => IntExact(o.flowlabel);
    case ServerOutput => IntExact(o.serverOutput);
    case Counters64 => IntExact(o.counters64);
    case NoPacing => IntExact(o.noPacing);
    case _ =>
  }
}
