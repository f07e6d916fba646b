/**
 One client and one server of the control protocol, the two directions of their control connection, the data
 connections under way, and strangers who connect to the server at any time.
 */
module Protocol {
  import opened ProtocolSpec
  import opened Wrappers

  datatype System<P, R> = System(
    cl: Client<P, R>,
    sv: Server<P, R>,
    clRead: nat,          // items of sv.sent that the client has read
    svRead: nat,          // items of cl.sent that the server has read
    arrived: nat,         // data connections, or datagrams of UDP, that the client has made
    udp: bool,
    strangers: seq<Caller>, // connections that wait at the listener
    lost: bool,           // the datagram for a stream, or the answer to it
    clOver: bool)         // the client has given up

  /** The two queues: sent and not yet read. */
  function ToServer<P, R>(sys: System<P, R>): seq<Item<P, R>>
    requires sys.svRead <= |sys.cl.sent|
  {
    sys.cl.sent[sys.svRead..]
  }

  function ToClient<P, R>(sys: System<P, R>): seq<Item<P, R>>
    requires sys.clRead <= |sys.sv.sent|
  {
    sys.sv.sent[sys.clRead..]
  }

  datatype Step =
    | ClientStarts
    | ClientReads
    | ClientMakesStream
    | ClientGetsReply
    | ClientRound
    | ServerAccepts
    | ServerReads
    | ServerTakesStream
    | StrangerComes(caller: Caller)
    | ServerMeetsStranger
    | ServerDenies
    | DatagramLost
    | ClientTimesOut
    | ClientSeesEnd
    | ServerSeesEnd

  predicate Enabled<P, R>(sys: System<P, R>, step: Step) {
    match step
    case ClientStarts => sys.cl.place.Starting? && !sys.clOver
    case ClientReads =>
      (sys.cl.place.Looping? || sys.cl.place.AwaitingResults?) && sys.clRead < |sys.sv.sent| && !sys.clOver
    case ClientMakesStream => sys.cl.place.Connecting? && !sys.clOver
    case ClientGetsReply =>
      sys.cl.place.AwaitingReply? && sys.cl.place.made < |sys.sv.accepted| && !sys.lost && !sys.clOver
    case ClientRound => sys.cl.place.Looping? && sys.cl.state == TEST_RUNNING && !sys.clOver
    case ServerAccepts => sys.sv.place.InLoop? && !sys.sv.connected && sys.cl.sent != []
    case ServerReads =>
      && sys.sv.connected && sys.svRead < |sys.cl.sent|
      && (sys.sv.place.InLoop? || sys.sv.place.ReadingCookie? || sys.sv.place.ReadingParameters?
          || sys.sv.place.ReadingResults?)
    case ServerTakesStream =>
      sys.sv.place.InLoop? && sys.sv.state == CREATE_STREAMS && |sys.sv.accepted| < sys.arrived && !sys.lost
    case StrangerComes(caller) => caller != Sends(sys.cl.cookie)
    case ServerMeetsStranger =>
      sys.sv.place.InLoop? && sys.strangers != [] && !(sys.udp && sys.sv.state == CREATE_STREAMS)
    case ServerDenies => sys.sv.place.Occupied? && sys.cl.sent != [] && sys.sv.sent == []
    case DatagramLost => sys.udp && sys.cl.place.AwaitingReply? && !sys.lost && !sys.clOver
    case ClientTimesOut => sys.lost && !sys.clOver
    case ClientSeesEnd =>
      && sys.sv.place.Broken? && !sys.clOver
      && (sys.cl.place.Looping? || sys.cl.place.AwaitingResults?) && sys.clRead == |sys.sv.sent|
    case ServerSeesEnd =>
      sys.clOver && sys.sv.place.InLoop? && sys.sv.connected && sys.svRead == |sys.cl.sent|
  }

  function Next<P, R>(sys: System<P, R>, step: Step): System<P, R>
    requires Enabled(sys, step)
  {
    match step
    case ClientStarts => sys.(cl := OnStart(sys.cl))
    case ClientReads => sys.(cl := ClientTakes(sys.cl, sys.sv.sent[sys.clRead]), clRead := sys.clRead + 1)
    case ClientMakesStream =>
      var made := sys.cl.place.made;
      sys.(cl := if sys.udp then sys.cl.(place := AwaitingReply(made)) else MoreStreams(sys.cl, made + 1),
           arrived := sys.arrived + 1)
    case ClientGetsReply => sys.(cl := MoreStreams(sys.cl, sys.cl.place.made + 1))
    case ClientRound => sys.(cl := OnRound(sys.cl))
    case ServerAccepts => sys.(sv := OnControl(sys.sv))
    case ServerReads => sys.(sv := ServerTakes(sys.sv, sys.cl.sent[sys.svRead]), svRead := sys.svRead + 1)
    case ServerTakesStream => sys.(sv := if sys.udp then OnUdpStream(sys.sv) else OnTcpStream(sys.sv, sys.cl.cookie))
    case StrangerComes(caller) => sys.(strangers := sys.strangers + [caller])
    case ServerMeetsStranger =>
      sys.(sv := MeetStranger(sys.sv, sys.strangers[0]), strangers := sys.strangers[1..])
    case ServerDenies => sys.(sv := sys.sv.(sent := [Code(ACCESS_DENIED)]))
    case DatagramLost => sys.(lost := true)
    case ClientTimesOut | ClientSeesEnd => sys.(clOver := true)
    case ServerSeesEnd => sys.(sv := sys.sv.(state := IPERF_DONE, place := Finished))
  }

  /** A read that finds something else than it expects takes the two sides apart. */
  function ClientTakes<P, R>(cl: Client<P, R>, item: Item<P, R>): Client<P, R> {
    if cl.place.Looping? && item.Code? then OnClientCode(cl, item.code)
    else if cl.place.AwaitingResults? && item.Results? then OnServerResults(cl, item.results)
    else cl.(place := ClientBroken)
  }

  function ServerTakes<P, R>(sv: Server<P, R>, item: Item<P, R>): Server<P, R> {
    if sv.place.ReadingCookie? && item.Hello? then OnCookie(sv, item.cookie)
    else if sv.place.ReadingParameters? && item.Parameters? then OnParameters(sv, item.params, item.streams)
    else if sv.place.ReadingResults? && item.Results? then OnClientResults(sv, item.results)
    else if sv.place.InLoop? && item.Code? then OnServerCode(sv, item.code)
    else sv.(place := Broken)
  }

  function Initial<P, R>(cookie: string, params: P, streams: int, work: nat, clOwn: R, svOwn: R, udp: bool):
      System<P, R>
  {
    System(Client(Starting, 0, cookie, params, streams, work, clOwn, None, []), NewServer(svOwn), 0, 0, 0, udp, [],
           false, false)
  }

  // ---- the invariant ----

  /** Everything a client sends, and everything a server sends, in order. */
  function ClientScript<P, R>(cl: Client<P, R>): seq<Item<P, R>> {
    [Hello(cl.cookie), Parameters(cl.params, cl.numStreams), Code(TEST_END), Results(cl.own), Code(IPERF_DONE)]
  }

  function ServerScript<P, R>(sv: Server<P, R>): seq<Item<P, R>> {
    [Code(PARAM_EXCHANGE), Code(CREATE_STREAMS), Code(TEST_START), Code(TEST_RUNNING),
     Code(EXCHANGE_RESULTS), Results(sv.own), Code(DISPLAY_RESULTS)]
  }

  function Streams<P, R>(cl: Client<P, R>): nat {
    if cl.numStreams < 0 then 0 else cl.numStreams
  }

  /** Where a client is that has sent so many items and read so many. */
  predicate ClientAt<P, R>(cl: Client<P, R>, sent: nat, read: nat, arrived: nat, udp: bool) {
    && (read <= 1 ==> arrived == 0)
    && (read >= 3 ==> arrived == Streams(cl))
    && match (sent, read)
       case (0, 0) => cl.place.Starting? && cl.state == 0
       case (1, 0) => cl.place.Looping? && cl.state == 0
       case (2, 1) => cl.place.Looping? && cl.state == PARAM_EXCHANGE
       case (2, 2) =>
         && cl.state == CREATE_STREAMS
         && ((cl.place == Connecting(arrived) && arrived < cl.numStreams)
             || (udp && arrived > 0 && cl.place == AwaitingReply(arrived - 1) && arrived <= cl.numStreams)
             || (cl.place.Looping? && arrived == Streams(cl)))
       case (2, 3) => cl.place.Looping? && cl.state == TEST_START
       case (2, 4) => cl.place.Looping? && cl.state == TEST_RUNNING
       case (3, 4) => cl.place.Looping? && cl.state == TEST_END
       case (4, 5) => cl.place.AwaitingResults? && cl.state == EXCHANGE_RESULTS
       case (4, 6) => cl.place.Looping? && cl.state == EXCHANGE_RESULTS
       case (5, 7) => cl.place.ClientFinished? && cl.state == IPERF_DONE
       case _ => false
  }

  predicate ServerAt<P, R>(sv: Server<P, R>, sent: nat, read: nat) {
    && (read == 0 && sv.place.InLoop? <==> !sv.connected)
    && (sent < 2 ==> sv.accepted == [])
    && (sent == 2 ==> |sv.accepted| != sv.numStreams)
    && (sent > 2 ==> |sv.accepted| == sv.numStreams)
    && match (sent, read)
       case (0, 0) =>
         (sv.place.InLoop? || sv.place.ReadingCookie? || sv.place.Blocked? || sv.place.Broken?) &&
         sv.state == IPERF_START
       case (1, 1) => sv.place.ReadingParameters? && sv.state == PARAM_EXCHANGE
       case (2, 2) => (sv.place.InLoop? || sv.place.Blocked? || sv.place.Broken?) && sv.state == CREATE_STREAMS
       case (4, 2) => (sv.place.InLoop? || sv.place.Broken?) && sv.state == TEST_RUNNING
       case (5, 3) => sv.place.ReadingResults? && sv.state == EXCHANGE_RESULTS
       case (7, 4) => (sv.place.InLoop? || sv.place.Broken?) && sv.state == DISPLAY_RESULTS
       case (7, 5) => sv.place.Finished? && sv.state == IPERF_DONE
       case _ => false
  }

  /** The server is the client's, or nobody's yet. */
  ghost predicate Ordinary<P, R>(sys: System<P, R>) {
    var cl, sv := sys.cl, sys.sv;
    && sys.svRead <= |cl.sent| <= 5 && cl.sent == ClientScript(cl)[..|cl.sent|]
    && sys.clRead <= |sv.sent| <= 7 && sv.sent == ServerScript(sv)[..|sv.sent|]
    && ClientAt(cl, |cl.sent|, sys.clRead, sys.arrived, sys.udp)
    && ServerAt(sv, |sv.sent|, sys.svRead)
    // what the two sides know of each other
    && (sys.svRead >= 1 ==> sv.cookie == cl.cookie)
    && (if sys.svRead >= 2 then sv.params == Some(cl.params) && sv.numStreams == cl.numStreams else sv.params == None)
    && sv.got == (if sys.svRead >= 4 then Some(cl.own) else None)
    && cl.got == (if sys.clRead >= 6 then Some(sv.own) else None)
    // the streams
    && |sv.accepted| <= sys.arrived
    && (sys.udp && sv.state == CREATE_STREAMS ==> sv.place.InLoop?)
    // what goes wrong
    && (sys.lost ==> sys.udp && cl.place.AwaitingReply?)
    && (sys.clOver ==> sys.lost || sv.place.Broken?)
    && (sys.udp && cl.place.Connecting? ==> |sv.accepted| == sys.arrived)
    && (sys.udp && |cl.sent| >= 2 && sys.clRead >= 2 && cl.place.Looping? ==> |sv.accepted| == sys.arrived)
    && (forall i :: 0 <= i < |sv.accepted| ==> sv.accepted[i] == if sys.udp then None else Some(cl.cookie))
  }

  /** A stranger's connection was there first: the client has at most connected, and may have been denied. */
  ghost predicate Preempted<P, R>(sys: System<P, R>) {
    var cl, sv := sys.cl, sys.sv;
    && sv.place.Occupied? && sv.connected && sv.state == IPERF_START && sv.accepted == [] && !sys.lost && !sys.clOver
    && sv.params == None && sv.got == None && cl.got == None
    && sys.svRead == 0 && sys.arrived == 0 && sys.clRead <= |sv.sent|
    && cl.sent == (if cl.place.Starting? then [] else [Hello(cl.cookie)])
    && (sv.sent == [] || (sv.sent == [Code(ACCESS_DENIED)] && cl.sent != []))
    && if sys.clRead == 0 then (cl.place.Starting? || cl.place.Looping?) && cl.state == 0
       else cl.place.ClientBroken? && cl.state == ACCESS_DENIED
  }

  /** The client gave up over a lost datagram, and the server has noticed. */
  ghost predicate Deserted<P, R>(sys: System<P, R>) {
    var cl, sv := sys.cl, sys.sv;
    && sys.lost && sys.clOver && sys.udp && sv.place.Finished? && sv.state == IPERF_DONE && sv.connected
    && cl.place.AwaitingReply? && cl.state == CREATE_STREAMS && cl.got == None && sv.got == None
    && sys.svRead == |cl.sent| == 2 && sys.clRead == 2 <= |sv.sent| <= 4 && sv.sent == ServerScript(sv)[..|sv.sent|]
    && cl.sent == ClientScript(cl)[..2] && sv.numStreams == cl.numStreams
    && |sv.accepted| <= sys.arrived <= cl.numStreams && 0 < sys.arrived
    && (if |sv.sent| > 2 then |sv.sent| == 4 && |sv.accepted| == sv.numStreams else |sv.accepted| != sv.numStreams)
    && forall i :: 0 <= i < |sv.accepted| ==> sv.accepted[i] == None
  }

  ghost predicate Inv<P, R>(sys: System<P, R>) {
    && (if sys.sv.place.Occupied? then Preempted(sys)
        else if sys.clOver && sys.sv.place.Finished? then Deserted(sys)
        else Ordinary(sys))
    && forall i :: 0 <= i < |sys.strangers| ==> sys.strangers[i] != Sends(sys.cl.cookie)
  }

  lemma InitialInv<P, R>(cookie: string, params: P, streams: int, work: nat, clOwn: R, svOwn: R, udp: bool)
    ensures Inv(Initial(cookie, params, streams, work, clOwn, svOwn, udp))
  {
  }

  lemma StepInv<P, R>(sys: System<P, R>, step: Step)
    requires Inv(sys) && Enabled(sys, step)
    ensures Inv(Next(sys, step))
  {
    hide Inv, Next, Enabled;
    match step
    case ClientReads => ClientReadsInv(sys);
    case ClientStarts | ClientMakesStream | ClientGetsReply | ClientRound => ClientStepInv(sys, step);
    case ServerReads => ServerReadsInv(sys);
    case ServerAccepts | ServerTakesStream => ServerStepInv(sys, step);
    case StrangerComes(_) | ServerDenies => StrangerInv(sys, step);
    case ServerMeetsStranger => MeetingInv(sys);
    case DatagramLost | ClientTimesOut | ClientSeesEnd | ServerSeesEnd => EndInv(sys, step);
  }

  lemma ClientStepInv<P, R>(sys: System<P, R>, step: Step)
    requires Inv(sys) && Enabled(sys, step)
    requires step.ClientStarts? || step.ClientMakesStream? || step.ClientGetsReply? || step.ClientRound?
    ensures Inv(Next(sys, step))
  {
  }

  lemma ServerStepInv<P, R>(sys: System<P, R>, step: Step)
    requires Inv(sys) && Enabled(sys, step) && (step.ServerAccepts? || step.ServerTakesStream?)
    ensures Inv(Next(sys, step))
  {
  }

  lemma StrangerInv<P, R>(sys: System<P, R>, step: Step)
    requires Inv(sys) && Enabled(sys, step)
    requires step.StrangerComes? || step.ServerDenies?
    ensures Inv(Next(sys, step))
  {
  }

  lemma MeetingInv<P, R>(sys: System<P, R>)
    requires Inv(sys) && Enabled(sys, ServerMeetsStranger)
    ensures Inv(Next(sys, ServerMeetsStranger))
  {
  }

  lemma EndInv<P, R>(sys: System<P, R>, step: Step)
    requires Inv(sys) && Enabled(sys, step)
    requires step.DatagramLost? || step.ClientTimesOut? || step.ClientSeesEnd? || step.ServerSeesEnd?
    ensures Inv(Next(sys, step))
  {
  }

  lemma ClientReadsInv<P, R>(sys: System<P, R>)
    requires Inv(sys) && Enabled(sys, ClientReads)
    ensures Inv(Next(sys, ClientReads))
  {
    hide Inv, Next, Enabled;
    if sys.clRead < 3 {
      ClientReadsEarly(sys);
    } else {
      ClientReadsLate(sys);
    }
  }

  lemma ClientReadsEarly<P, R>(sys: System<P, R>)
    requires Inv(sys) && Enabled(sys, ClientReads) && sys.clRead < 3
    ensures Inv(Next(sys, ClientReads))
  {
  }

  lemma ClientReadsLate<P, R>(sys: System<P, R>)
    requires Inv(sys) && Enabled(sys, ClientReads) && sys.clRead >= 3
    ensures Inv(Next(sys, ClientReads))
  {
  }

  lemma ServerReadsInv<P, R>(sys: System<P, R>)
    requires Inv(sys) && Enabled(sys, ServerReads)
    ensures Inv(Next(sys, ServerReads))
  {
    hide Inv, Next, Enabled;
    if sys.svRead < 2 {
      ServerReadsEarly(sys);
    } else {
      ServerReadsLate(sys);
    }
  }

  lemma ServerReadsEarly<P, R>(sys: System<P, R>)
    requires Inv(sys) && Enabled(sys, ServerReads) && sys.svRead < 2
    ensures Inv(Next(sys, ServerReads))
  {
  }

  lemma ServerReadsLate<P, R>(sys: System<P, R>)
    requires Inv(sys) && Enabled(sys, ServerReads) && sys.svRead >= 2
    ensures Inv(Next(sys, ServerReads))
  {
  }

  // ---- what the invariant means ----

  lemma NoMessageBreaks<P, R>(sys: System<P, R>)
    requires Inv(sys) && Enabled(sys, ServerReads)
    ensures !Next(sys, ServerReads).sv.place.Broken?
  {
    assert sys.cl.sent[sys.svRead] == ClientScript(sys.cl)[..|sys.cl.sent|][sys.svRead];
  }

  /** A side that reads a state finds a state, and a side that reads a frame finds that frame.  No message breaks the
      server, and none the client but the one that tells it that the server is occupied. */
  lemma Synchronised<P, R>(sys: System<P, R>)
    requires Inv(sys)
    ensures Enabled(sys, ServerReads) ==> !Next(sys, ServerReads).sv.place.Broken?
    ensures sys.cl.place.ClientBroken? <==> sys.cl.state == ACCESS_DENIED
    ensures sys.cl.place.ClientBroken? ==> sys.sv.place.Occupied?
    ensures ToClient(sys) != [] ==>
              var item := ToClient(sys)[0];
              && (sys.cl.place.Looping? ==> item.Code? && (item.code == ACCESS_DENIED <==> sys.sv.place.Occupied?))
              && (sys.cl.place.AwaitingResults? ==> item == Results(sys.sv.own))
    ensures ToServer(sys) != [] && sys.sv.connected ==>
              var item := ToServer(sys)[0];
              && (sys.sv.place.InLoop? ==> item.Code?)
              && (sys.sv.place.ReadingCookie? ==> item == Hello(sys.cl.cookie))
              && (sys.sv.place.ReadingParameters? ==> item == Parameters(sys.cl.params, sys.cl.numStreams))
              && (sys.sv.place.ReadingResults? ==> item == Results(sys.cl.own))
  {
    if Enabled(sys, ServerReads) {
      NoMessageBreaks(sys);
    }
    if !sys.sv.place.Occupied? && ToClient(sys) != [] {
      var script := ServerScript(sys.sv);
      assert ToClient(sys)[0] == script[..|sys.sv.sent|][sys.clRead] == script[sys.clRead];
    }
    if !sys.sv.place.Occupied? && ToServer(sys) != [] {
      var script := ClientScript(sys.cl);
      assert ToServer(sys)[0] == script[..|sys.cl.sent|][sys.svRead] == script[sys.svRead];
    }
  }

  /** The client never believes the test to be running when the server does not. */
  lemma RunningTogether<P, R>(sys: System<P, R>)
    requires Inv(sys) && sys.cl.state == TEST_RUNNING
    ensures sys.sv.state == TEST_RUNNING && |sys.sv.accepted| == sys.cl.numStreams
  {
  }

  /** The test starts once, and only with all streams of its owner. */
  lemma StartsOnceComplete<P, R>(sys: System<P, R>)
    requires Inv(sys)
    ensures Code(TEST_START) in sys.sv.sent <==> Code(TEST_RUNNING) in sys.sv.sent
    ensures forall i, j :: 0 <= i < j < |sys.sv.sent| ==> sys.sv.sent[i] != sys.sv.sent[j]
    ensures Code(TEST_START) in sys.sv.sent ==>
              && |sys.sv.accepted| == sys.sv.numStreams == sys.cl.numStreams
              && forall i :: 0 <= i < |sys.sv.accepted| ==>
                   sys.sv.accepted[i] == if sys.udp then None else Some(sys.cl.cookie)
  {
    var script := ServerScript(sys.sv);
    assert script[2] == Code(TEST_START) && script[3] == Code(TEST_RUNNING);
    assert !sys.sv.place.Occupied? && |sys.sv.sent| >= 4 ==>
             sys.sv.sent[2] == Code(TEST_START) && sys.sv.sent[3] == Code(TEST_RUNNING);
  }

  ghost predicate BothFinished<P, R>(sys: System<P, R>) {
    sys.cl.place.ClientFinished? && sys.sv.place.Finished?
  }

  /** At the end nothing is left unread, and each side has what the other sent. */
  lemma FinalAgreement<P, R>(sys: System<P, R>)
    requires Inv(sys) && BothFinished(sys)
    ensures sys.cl.state == IPERF_DONE && sys.sv.state == IPERF_DONE
    ensures ToClient(sys) == [] && ToServer(sys) == []
    ensures sys.clRead == |sys.sv.sent| && sys.svRead == |sys.cl.sent|
    ensures sys.sv.params == Some(sys.cl.params) && sys.sv.numStreams == sys.cl.numStreams
    ensures sys.sv.got == Some(sys.cl.own) && sys.cl.got == Some(sys.sv.own)
  {
  }

  // ---- progress ----

  /** A step that can be taken without waiting for anyone. */
  function Ready<P, R>(sys: System<P, R>): Step {
    if Enabled(sys, ClientStarts) then ClientStarts
    else if Enabled(sys, ClientReads) then ClientReads
    else if Enabled(sys, ClientMakesStream) then ClientMakesStream
    else if Enabled(sys, ClientGetsReply) then ClientGetsReply
    else if Enabled(sys, ClientRound) then ClientRound
    else if Enabled(sys, ServerAccepts) then ServerAccepts
    else if Enabled(sys, ServerReads) then ServerReads
    else ServerTakesStream
  }

  /** The server serves the client, or can still do so, and no datagram is missing. */
  predicate Available<P, R>(sys: System<P, R>) {
    !sys.sv.place.Occupied? && !sys.sv.place.Blocked? && !sys.sv.place.Broken? && !sys.lost
  }

  /** A stranger takes the server away: one who comes before the owner, one whose connection fails, or one who sends no
      cookie while the server waits for the streams of a TCP test.  Or the datagram for a stream, or its answer, is
      lost. */
  predicate Fatal<P, R>(sys: System<P, R>, step: Step)
    requires Enabled(sys, step)
  {
    step.DatagramLost? ||
    (step.ServerMeetsStranger? &&
     (!sys.sv.connected || sys.strangers[0].Failing? || (sys.strangers[0].Silent? && sys.sv.state == CREATE_STREAMS)))
  }

  /** No deadlock, for every number of streams that is not negative, as long as nothing is lost. */
  lemma NoDeadlock<P, R>(sys: System<P, R>)
    requires Inv(sys) && 0 <= sys.cl.numStreams && !BothFinished(sys) && Available(sys)
    ensures Enabled(sys, Ready(sys))
  {
  }

  /** Once lost the test stays lost, it is lost by fatal steps only, and it never finishes. */
  lemma LostForever<P, R>(sys: System<P, R>, step: Step)
    requires Inv(sys) && Enabled(sys, step)
    ensures Available(Next(sys, step)) <==> Available(sys) && !Fatal(sys, step)
    ensures !Available(sys) ==> !BothFinished(sys)
  {
    hide Inv;
    if !Available(sys) {
      LostUnfinished(sys);
    }
    if step.ServerReads? {
      NoMessageBreaks(sys);
    }
    if step.ServerSeesEnd? {
      GaveUpOverLoss(sys);
    }
  }

  lemma LostUnfinished<P, R>(sys: System<P, R>)
    requires Inv(sys) && !Available(sys)
    ensures !BothFinished(sys)
  {
  }

  lemma GaveUpOverLoss<P, R>(sys: System<P, R>)
    requires Inv(sys) && sys.clOver && !sys.sv.place.Broken?
    ensures sys.lost
  {
  }

  /** A negative number of streams, which the client does not refuse, is never reached by the count of the server:
      the test does not start, and neither side finishes. */
  lemma NegativeNeverFinishes<P, R>(sys: System<P, R>)
    requires Inv(sys) && sys.cl.numStreams < 0
    ensures |sys.sv.sent| <= 2 && !sys.cl.place.ClientFinished? && !sys.sv.place.Finished?
  {
  }

  /** What is still to be done. */
  function Measure<P, R>(sys: System<P, R>): int {
    (5 - |sys.cl.sent|) + (7 - sys.clRead) + (5 - sys.svRead) + (if sys.sv.connected then 0 else 1) +
    2 * (Streams(sys.cl) - sys.arrived) + (if sys.cl.place.AwaitingReply? then 1 else 0) +
    (if sys.sv.place.Occupied? && sys.sv.sent == [] then 1 else 0) + (if sys.sv.place.Finished? then 0 else 1) +
    (if sys.lost then 0 else 1) + (if sys.clOver then 0 else 1) +
    (Streams(sys.cl) - |sys.sv.accepted|) + sys.cl.work + |sys.strangers|
  }

  lemma MeasureFalls<P, R>(sys: System<P, R>, step: Step)
    requires Inv(sys) && Enabled(sys, step) && !step.StrangerComes?
    ensures 0 <= Measure(Next(sys, step)) < Measure(sys)
  {
    hide Inv, Next, Enabled, Measure;
    StepInv(sys, step);
    MeasureNatural(Next(sys, step));
    match step
    case ClientStarts | ClientMakesStream | ClientGetsReply | ClientRound => ClientMeasure(sys, step);
    case ClientReads => ClientReadMeasure(sys);
    case ServerReads => ServerReadMeasure(sys);
    case DatagramLost | ClientTimesOut | ClientSeesEnd | ServerSeesEnd => EndMeasure(sys, step);
    case _ => ServerMeasure(sys, step);
  }

  lemma ClientMeasure<P, R>(sys: System<P, R>, step: Step)
    requires Inv(sys) && Enabled(sys, step)
    requires step.ClientStarts? || step.ClientMakesStream? || step.ClientGetsReply? || step.ClientRound?
    ensures Measure(Next(sys, step)) < Measure(sys)
  {
  }

  lemma ClientReadMeasure<P, R>(sys: System<P, R>)
    requires Inv(sys) && Enabled(sys, ClientReads)
    ensures Measure(Next(sys, ClientReads)) < Measure(sys)
  {
    hide Inv, ClientTakes;
    ClientTakesOn(sys.cl, sys.sv.sent[sys.clRead]);
  }

  lemma ClientTakesOn<P, R>(cl: Client<P, R>, item: Item<P, R>)
    ensures var cl' := ClientTakes(cl, item);
            && |cl.sent| <= |cl'.sent| && cl'.numStreams == cl.numStreams && cl'.work == cl.work
            && (cl'.place.AwaitingReply? ==> cl.place.AwaitingReply?)
  {
  }

  lemma ServerReadMeasure<P, R>(sys: System<P, R>)
    requires Inv(sys) && Enabled(sys, ServerReads)
    ensures Measure(Next(sys, ServerReads)) < Measure(sys)
  {
    hide Inv, ServerTakes;
    ServerTakesOn(sys.sv, sys.cl.sent[sys.svRead]);
  }

  lemma ServerTakesOn<P, R>(sv: Server<P, R>, item: Item<P, R>)
    requires !sv.place.Occupied? && !sv.place.Finished?
    ensures var sv' := ServerTakes(sv, item);
            sv'.connected == sv.connected && sv'.accepted == sv.accepted && !sv'.place.Occupied?
  {
  }

  lemma ServerMeasure<P, R>(sys: System<P, R>, step: Step)
    requires Inv(sys) && Enabled(sys, step)
    requires step.ServerAccepts? || step.ServerTakesStream? || step.ServerMeetsStranger? || step.ServerDenies?
    ensures Measure(Next(sys, step)) < Measure(sys)
  {
  }

  lemma EndMeasure<P, R>(sys: System<P, R>, step: Step)
    requires Inv(sys) && Enabled(sys, step)
    requires step.DatagramLost? || step.ClientTimesOut? || step.ClientSeesEnd? || step.ServerSeesEnd?
    ensures Measure(Next(sys, step)) < Measure(sys)
  {
  }

  lemma VisitAdds<P, R>(sys: System<P, R>, caller: Caller)
    requires Enabled(sys, StrangerComes(caller))
    ensures Measure(Next(sys, StrangerComes(caller))) == Measure(sys) + 1
  {
  }

  lemma MeasureNatural<P, R>(sys: System<P, R>)
    requires Inv(sys)
    ensures 0 <= Measure(sys)
  {
  }

  // ---- whole runs ----

  /** A run from its first state, with the steps taken. */
  ghost predicate IsRun<P, R>(states: seq<System<P, R>>, steps: seq<Step>) {
    && |states| == |steps| + 1
    && forall i :: 0 <= i < |steps| ==> Enabled(states[i], steps[i]) && states[i + 1] == Next(states[i], steps[i])
  }

  lemma NextKeeps<P, R>(sys: System<P, R>, step: Step)
    requires Enabled(sys, step)
    ensures var next := Next(sys, step);
            next.cl.own == sys.cl.own && next.sv.own == sys.sv.own && next.cl.params == sys.cl.params &&
            next.cl.numStreams == sys.cl.numStreams
  {
  }

  lemma {:induction false} RunInv<P, R>(states: seq<System<P, R>>, steps: seq<Step>, n: nat)
    requires IsRun(states, steps) && Inv(states[0]) && n < |states|
    ensures Inv(states[n]) && states[n].cl.numStreams == states[0].cl.numStreams
  {
    hide Inv, Enabled, Next;
    if n > 0 {
      RunInv(states, steps, n - 1);
      NextKeeps(states[n - 1], steps[n - 1]);
      StepInv(states[n - 1], steps[n - 1]);
    }
  }

  /** The number of strangers that come during a run. */
  ghost function Visits(steps: seq<Step>): nat {
    if steps == [] then 0 else Visits(steps[..|steps| - 1]) + (if steps[|steps| - 1].StrangerComes? then 1 else 0)
  }

  /** No run without visits is longer than the measure of its first state; each visit adds at most two steps. */
  lemma {:induction false} RunLength<P, R>(states: seq<System<P, R>>, steps: seq<Step>)
    requires IsRun(states, steps) && Inv(states[0])
    ensures |steps| + Measure(states[|steps|]) <= Measure(states[0]) + 2 * Visits(steps)
    ensures |steps| <= Measure(states[0]) + 2 * Visits(steps)
    decreases |steps|
  {
    hide Inv, Enabled, Next;
    var n := |steps|;
    RunInv(states, steps, n);
    MeasureNatural(states[n]);
    if n > 0 {
      var last := steps[n - 1];
      assert IsRun(states[..n], steps[..n - 1]);
      RunLength(states[..n], steps[..n - 1]);
      RunInv(states, steps, n - 1);
      if last.StrangerComes? {
        VisitAdds(states[n - 1], last.caller);
      } else {
        MeasureFalls(states[n - 1], last);
      }
    }
  }

  /** None of the first n steps is fatal. */
  ghost predicate Undisturbed<P, R>(states: seq<System<P, R>>, steps: seq<Step>, n: nat)
    requires IsRun(states, steps) && n <= |steps|
  {
    forall i :: 0 <= i < n ==> !Fatal(states[i], steps[i])
  }

  lemma {:induction false} AvailableIffUndisturbed<P, R>(states: seq<System<P, R>>, steps: seq<Step>, n: nat)
    requires IsRun(states, steps) && Inv(states[0]) && Available(states[0]) && n <= |steps|
    ensures Available(states[n]) <==> Undisturbed(states, steps, n)
  {
    hide Inv, Enabled, Next, Available, Fatal;
    if n > 0 {
      AvailableIffUndisturbed(states, steps, n - 1);
      RunInv(states, steps, n - 1);
      LostForever(states[n - 1], steps[n - 1]);
    }
  }

  /** A run that cannot be continued, but for visits, has finished if and only if no stranger took the server away and
      no datagram for a stream was lost, and then in agreement. */
  lemma StoppedRunIsFinished<P, R>(cookie: string, params: P, streams: nat, work: nat, clOwn: R, svOwn: R, udp: bool,
                                   states: seq<System<P, R>>, steps: seq<Step>)
    requires IsRun(states, steps)
    requires states[0] == Initial(cookie, params, streams, work, clOwn, svOwn, udp)
    requires forall step: Step :: Enabled(states[|steps|], step) ==> step.StrangerComes?
    ensures BothFinished(states[|steps|]) <==> Undisturbed(states, steps, |steps|)
    ensures var end := states[|steps|];
            BothFinished(end) ==>
              && end.clRead == |end.sv.sent| && end.svRead == |end.cl.sent|
              && end.sv.params == Some(params) && end.sv.numStreams == streams
              && end.sv.got == Some(clOwn) && end.cl.got == Some(svOwn)
  {
    hide Fatal, Ordinary, Preempted, Deserted, Next, Enabled;
    InitialInv(cookie, params, streams, work, clOwn, svOwn, udp);
    RunInv(states, steps, |steps|);
    RunKeepsOwn(states, steps, |steps|);
    AvailableIffUndisturbed(states, steps, |steps|);
    var end := states[|steps|];
    if BothFinished(end) {
      FinalAgreement(end);
      if !Available(end) {
        LostUnfinished(end);
      }
    } else if Available(end) {
      NoDeadlock(end);
    }
  }

  /** What a client meets whose server was taken: nothing, or that access is denied. */
  lemma PreemptedClient<P, R>(sys: System<P, R>)
    requires Inv(sys) && sys.sv.place.Occupied?
    ensures |sys.cl.sent| <= 1 && sys.arrived == 0 && sys.cl.got == None
    ensures sys.sv.sent == [] || sys.sv.sent == [Code(ACCESS_DENIED)]
    ensures sys.clRead == 1 <==> sys.cl.place.ClientBroken?
  {
  }

  lemma {:induction false} RunKeepsOwn<P, R>(states: seq<System<P, R>>, steps: seq<Step>, n: nat)
    requires IsRun(states, steps) && n < |states|
    ensures var a, b := states[0], states[n];
            && a.cl.own == b.cl.own && a.sv.own == b.sv.own
            && a.cl.params == b.cl.params && a.cl.numStreams == b.cl.numStreams
  {
    hide Enabled, Next;
    if n > 0 {
      RunKeepsOwn(states, steps, n - 1);
      NextKeeps(states[n - 1], steps[n - 1]);
    }
  }
}
