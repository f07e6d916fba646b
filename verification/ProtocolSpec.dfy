/**
 The control protocol, one reaction at a time (iperf_client_api.c, iperf_server_api.c and the exchange routines of
 iperf_api.c).  A reaction starts when a blocking read returns, and runs up to the next blocking read or back to the
 select loop.
 */
module ProtocolSpec {
  import opened Wrappers

  // iperf_api.h
  const TEST_START := 1
  const TEST_RUNNING := 2
  const TEST_END := 4
  const PARAM_EXCHANGE := 9
  const CREATE_STREAMS := 10
  const SERVER_TERMINATE := 11
  const CLIENT_TERMINATE := 12
  const EXCHANGE_RESULTS := 13
  const DISPLAY_RESULTS := 14
  const IPERF_START := 15
  const IPERF_DONE := 16
  const ACCESS_DENIED := -1
  const SERVER_ERROR := -2

  /** What travels on the control connection: the cookie, one-byte states, and length-prefixed frames. */
  datatype Item<P, R> =
    | Hello(cookie: string)
    | Code(code: int)
    | Parameters(params: P, streams: int)
    | Results(results: R)

  // ---- server ----

  /** Where the server is: in its select loop, in a read that blocks, or at its end.  Occupied: the control connection
      is not the owner's.  Blocked: in a read of the cookie of a connection that stays open and sends none. */
  datatype ServerPlace =
    | InLoop
    | ReadingCookie
    | ReadingParameters
    | ReadingResults
    | Occupied
    | Blocked
    | Finished
    | Broken

  datatype Server<P, R> = Server(
    place: ServerPlace,
    state: int,
    connected: bool,             // ctrl_sck != -1
    cookie: string,
    params: Option<P>,
    numStreams: int,
    accepted: seq<Option<string>>, // for each stream counted, the cookie it presented; None for UDP
    own: R,                      // what send_results will send
    got: Option<R>,
    sent: seq<Item<P, R>>)

  function NewServer<P, R>(own: R): Server<P, R> {
    Server(InLoop, IPERF_START, false, "", None, 1, [], own, None, [])
  }

  /** iperf_set_send_state */
  function Announce<P, R>(sv: Server<P, R>, state: int): Server<P, R> {
    sv.(state := state, sent := sv.sent + [Code(state)])
  }

  /** iperf_accept on a free server: the connection becomes the control connection. */
  function OnControl<P, R>(sv: Server<P, R>): Server<P, R> {
    sv.(connected := true, place := ReadingCookie)
  }

  function OnCookie<P, R>(sv: Server<P, R>, cookie: string): Server<P, R> {
    Announce(sv.(cookie := cookie, place := ReadingParameters), PARAM_EXCHANGE)
  }

  function OnParameters<P, R>(sv: Server<P, R>, params: P, streams: int): Server<P, R> {
    StartIfComplete(Announce(sv.(params := Some(params), numStreams := streams, place := InLoop), CREATE_STREAMS))
  }

  /** The loop compares streams_accepted with num_streams as long as the state is CREATE_STREAMS. */
  function StartIfComplete<P, R>(sv: Server<P, R>): Server<P, R> {
    if sv.state == CREATE_STREAMS && |sv.accepted| == sv.numStreams
    then Announce(Announce(sv, TEST_START), TEST_RUNNING)
    else sv
  }

  /** iperf_tcp_accept: a connection with another cookie is denied and closed, and not counted. */
  function OnTcpStream<P, R>(sv: Server<P, R>, cookie: string): Server<P, R> {
    StartIfComplete(if cookie == sv.cookie then sv.(accepted := sv.accepted + [Some(cookie)]) else sv)
  }

  /** What a connection at the listener does: it sends a cookie, stays open and sends none, or fails, so that nothing
      can be read from it or written to it. */
  datatype Caller = Sends(cookie: string) | Silent | Failing

  /** A connection of somebody else.  In CREATE_STREAMS the cookie is read; on a free server the connection becomes the
      control connection; at any other time it gets ACCESS_DENIED unread.  A read or write that fails ends the loop. */
  function MeetStranger<P, R>(sv: Server<P, R>, caller: Caller): Server<P, R> {
    if caller.Failing? then sv.(connected := true, place := Broken)
    else if !sv.connected then sv.(connected := true, place := if caller.Sends? then Occupied else Blocked)
    else if sv.state != CREATE_STREAMS then sv
    else if caller.Sends? then OnTcpStream(sv, caller.cookie)
    else sv.(place := Blocked)
  }

  /** iperf_udp_accept: any datagram announces a stream. */
  function OnUdpStream<P, R>(sv: Server<P, R>): Server<P, R> {
    StartIfComplete(sv.(accepted := sv.accepted + [None]))
  }

  /** iperf_handle_message_server, up to the read of the client's results. */
  function OnServerCode<P, R>(sv: Server<P, R>, code: int): Server<P, R> {
    var sv := sv.(state := code);
    if code == TEST_START then sv
    else if code == TEST_END then Announce(sv, EXCHANGE_RESULTS).(place := ReadingResults)
    else if code == IPERF_DONE then sv.(place := Finished)
    else if code == CLIENT_TERMINATE then sv.(state := IPERF_DONE, place := Finished)
    else sv.(place := Broken)
  }

  /** get_results, send_results and the last state of the server. */
  function OnClientResults<P, R>(sv: Server<P, R>, results: R): Server<P, R> {
    Announce(sv.(got := Some(results), sent := sv.sent + [Results(sv.own)], place := InLoop), DISPLAY_RESULTS)
  }

  // ---- client ----

  datatype ClientPlace =
    | Starting
    | Looping
    | Connecting(made: nat)        // in iperf_create_streams, with so many streams made
    | AwaitingReply(made: nat)     // there, waiting for the server's datagram
    | AwaitingResults
    | ClientFinished
    | ClientBroken

  datatype Client<P, R> = Client(
    place: ClientPlace,
    state: int,
    cookie: string,
    params: P,
    numStreams: int,
    work: nat,                   // rounds of the loop until the end condition of the test holds
    own: R,
    got: Option<R>,
    sent: seq<Item<P, R>>)

  function Tell<P, R>(cl: Client<P, R>, item: Item<P, R>): Client<P, R> {
    cl.(sent := cl.sent + [item])
  }

  /** iperf_connect */
  function OnStart<P, R>(cl: Client<P, R>): Client<P, R> {
    Tell(cl.(place := Looping), Hello(cl.cookie))
  }

  /** iperf_handle_message_client, up to a blocking read. */
  function OnClientCode<P, R>(cl: Client<P, R>, code: int): Client<P, R> {
    var cl := cl.(state := code);
    if code == PARAM_EXCHANGE then Tell(cl, Parameters(cl.params, cl.numStreams))
    else if code == CREATE_STREAMS then MoreStreams(cl, 0)
    else if code == TEST_START || code == TEST_RUNNING then cl
    else if code == EXCHANGE_RESULTS then Tell(cl.(place := AwaitingResults), Results(cl.own))
    else if code == DISPLAY_RESULTS then Tell(cl.(state := IPERF_DONE, place := ClientFinished), Code(IPERF_DONE))
    else if code == IPERF_DONE then cl.(place := ClientFinished)
    else cl.(place := ClientBroken)
  }

  /** The loop of iperf_create_streams: back to the select loop once all streams are made. */
  function MoreStreams<P, R>(cl: Client<P, R>, made: nat): Client<P, R> {
    cl.(place := if made < cl.numStreams then Connecting(made) else Looping)
  }

  function OnServerResults<P, R>(cl: Client<P, R>, results: R): Client<P, R> {
    cl.(got := Some(results), place := Looping)
  }

  /** A round of the loop while the test is running: the test goes on, or TEST_END is sent. */
  function OnRound<P, R>(cl: Client<P, R>): Client<P, R> {
    if cl.work > 0 then cl.(work := cl.work - 1)
    else Tell(cl.(state := TEST_END), Code(TEST_END))
  }
}
