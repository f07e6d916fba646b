/**
 The server against anyone: its select loop as a reaction to whatever arrives, in any order, from any number of
 connections (iperf_server_api.c, iperf_run_server, iperf_accept and iperf_handle_message_server).
 */
module ServerLoop {
  import opened ProtocolSpec
  import opened Wrappers

  /** What wakes the select loop.  A connection to the listener carries the cookie it sends and, should it become the
      control connection, the parameters that follow; a mute one stays open and sends nothing, and on a failing one no
      read or write succeeds.  A control message carries the results that may follow it. */
  datatype Event<P, R> =
    | Connection(cookie: string, params: P, streams: int)
    | Mute
    | Failure
    | Datagram
    | Message(code: int, results: R)
    | Closed

  /** What the loop does about one event. */
  function React<P, R>(sv: Server<P, R>, udp: bool, event: Event<P, R>): Server<P, R> {
    if !sv.place.InLoop? then sv
    else
      match event
      case Connection(cookie, params, streams) =>
        if sv.state == CREATE_STREAMS then (if udp then sv else OnTcpStream(sv, cookie))
        else if sv.connected then sv
        else OnParameters(OnCookie(OnControl(sv), cookie), params, streams)
      case Mute => if sv.state == CREATE_STREAMS && udp then sv else MeetStranger(sv, Silent)
      case Failure => if sv.state == CREATE_STREAMS && udp then sv else MeetStranger(sv, Failing)
      case Datagram => if sv.state == CREATE_STREAMS && udp then OnUdpStream(sv) else sv
      case Message(code, results) =>
        if !sv.connected then sv
        else
          var sv' := OnServerCode(sv, code);
          if sv'.place.ReadingResults? then OnClientResults(sv', results) else sv'
      case Closed => if sv.connected then sv.(state := IPERF_DONE, place := Finished) else sv
  }

  function ReactAll<P, R>(sv: Server<P, R>, udp: bool, events: seq<Event<P, R>>): Server<P, R>
    decreases |events|
  {
    if events == [] then sv else ReactAll(React(sv, udp, events[0]), udp, events[1..])
  }

  /** The connections that get ACCESS_DENIED. */
  predicate Denies<P, R>(sv: Server<P, R>, udp: bool, event: Event<P, R>) {
    && sv.place.InLoop? && (event.Connection? || event.Mute?)
    && if sv.state == CREATE_STREAMS then !udp && event.Connection? && event.cookie != sv.cookie else sv.connected
  }

  function Denials<P, R>(sv: Server<P, R>, udp: bool, events: seq<Event<P, R>>): nat
    decreases |events|
  {
    if events == [] then 0
    else (if Denies(sv, udp, events[0]) then 1 else 0) + Denials(React(sv, udp, events[0]), udp, events[1..])
  }

  /** What a turn of the loop serves of what is ready: in CREATE_STREAMS no new clients, and no stream behind a message,
      which ends that state. */
  function Served<P, R>(sv: Server<P, R>, udp: bool, listener: Option<Event<P, R>>, control: Option<Event<P, R>>,
                        datagram: bool): seq<Event<P, R>>
  {
    if !sv.place.InLoop? then []
    else if sv.state != CREATE_STREAMS then
      (if listener.Some? then [listener.value] else []) +
      (if sv.connected && control.Some? then [control.value] else [])
    else if sv.connected && control.Some? then [control.value]
    else if udp then (if datagram then [Datagram] else [])
    else if listener.Some? then [listener.value]
    else []
  }

  /** What becomes of a server in its loop: what is ready on the listener is served outside CREATE_STREAMS, and what is
      ready on the control connection always, behind it; in CREATE_STREAMS a stream is served if there is no message. */
  lemma ReadyIsServed<P, R>(sv: Server<P, R>, udp: bool, listener: Option<Event<P, R>>, control: Option<Event<P, R>>,
                            datagram: bool)
    requires sv.place.InLoop?
    ensures var sv' := ReactAll(sv, udp, Served(sv, udp, listener, control, datagram));
            && (sv.state != CREATE_STREAMS && listener.Some? && !(sv.connected && control.Some?) ==>
                  sv' == React(sv, udp, listener.value))
            && (sv.state != CREATE_STREAMS && listener.Some? && sv.connected && control.Some? ==>
                  sv' == React(React(sv, udp, listener.value), udp, control.value))
            && (sv.connected && control.Some? && (sv.state == CREATE_STREAMS || listener.None?) ==>
                  sv' == React(sv, udp, control.value))
            && (sv.state == CREATE_STREAMS && !(sv.connected && control.Some?) && udp && datagram ==>
                  sv' == React(sv, udp, Datagram))
            && (sv.state == CREATE_STREAMS && !(sv.connected && control.Some?) && !udp && listener.Some? ==>
                  sv' == React(sv, udp, listener.value))
            && (!(sv.connected && control.Some?)
                && (if sv.state == CREATE_STREAMS && udp then !datagram else listener.None?) ==>
                  sv' == sv)
  {
    hide React;
    if listener.Some? {
      ServeOne(sv, udp, listener.value);
    }
    if control.Some? {
      ServeOne(sv, udp, control.value);
    }
    if listener.Some? && control.Some? {
      ServeTwo(sv, udp, listener.value, control.value);
      assert [listener.value, control.value] == [listener.value] + [control.value];
    }
    ServeOne(sv, udp, Datagram);
  }

  lemma ServeOne<P, R>(sv: Server<P, R>, udp: bool, event: Event<P, R>)
    ensures ReactAll(sv, udp, [event]) == React(sv, udp, event)
    ensures Denials(sv, udp, [event]) == if Denies(sv, udp, event) then 1 else 0
  {
    hide React, Denies;
    var sv' := React(sv, udp, event);
    assert ReactAll(sv', udp, []) == sv' && Denials(sv', udp, []) == 0;
  }

  lemma ServeTwo<P, R>(sv: Server<P, R>, udp: bool, first: Event<P, R>, second: Event<P, R>)
    ensures ReactAll(sv, udp, [first, second]) == React(React(sv, udp, first), udp, second)
    ensures Denials(sv, udp, [first, second]) ==
            (if Denies(sv, udp, first) then 1 else 0) + (if Denies(React(sv, udp, first), udp, second) then 1 else 0)
  {
    hide React, Denies;
    ServeOne(React(sv, udp, first), udp, second);
    assert [first, second][1..] == [second];
  }

  ghost function Sent<P, R>(sv: Server<P, R>, code: int): nat {
    Occurrences(sv.sent, code)
  }

  ghost function Occurrences<P, R>(items: seq<Item<P, R>>, code: int): nat {
    if items == [] then 0
    else Occurrences(items[..|items| - 1], code) + (if items[|items| - 1] == Code(code) then 1 else 0)
  }

  lemma OccurrencesMore<P, R>(items: seq<Item<P, R>>, item: Item<P, R>, code: int)
    ensures Occurrences(items + [item], code) == Occurrences(items, code) + (if item == Code(code) then 1 else 0)
  {
    assert (items + [item])[..|items|] == items;
  }

  /** Only streams with the owner's cookie count, and the test starts at most once, with exactly that many. */
  ghost predicate Safe<P, R>(sv: Server<P, R>, udp: bool) {
    && (sv.place.InLoop? || sv.place.Blocked? || sv.place.Finished? || sv.place.Broken?)
    && (!sv.connected ==> sv.state == IPERF_START && sv.sent == [] && sv.accepted == [] && sv.numStreams != 0)
    && (!udp ==> forall i :: 0 <= i < |sv.accepted| ==> sv.accepted[i] == Some(sv.cookie))
    && Sent(sv, TEST_START) == Sent(sv, TEST_RUNNING) <= 1
    && (Sent(sv, TEST_START) == 1 ==> |sv.accepted| == sv.numStreams)
    && (Sent(sv, TEST_START) == 0 ==> sv.connected ==> |sv.accepted| != sv.numStreams)
    && (sv.state == CREATE_STREAMS && sv.place.InLoop? ==> Sent(sv, TEST_START) == 0)
  }

  lemma NewServerSafe<P, R>(own: R, udp: bool)
    ensures Safe(NewServer<P, R>(own), udp)
  {
  }

  lemma AnnounceCounts<P, R>(sv: Server<P, R>, state: int, code: int)
    ensures Sent(Announce(sv, state), code) == Sent(sv, code) + (if state == code then 1 else 0)
  {
    OccurrencesMore(sv.sent, Code(state), code);
  }

  lemma StartSafe<P, R>(sv: Server<P, R>, udp: bool)
    requires sv.place.InLoop? && sv.connected && sv.state == CREATE_STREAMS
    requires !udp ==> forall i :: 0 <= i < |sv.accepted| ==> sv.accepted[i] == Some(sv.cookie)
    requires Sent(sv, TEST_START) == Sent(sv, TEST_RUNNING) == 0
    ensures Safe(StartIfComplete(sv), udp)
  {
    hide Occurrences;
    var sv' := Announce(sv, TEST_START);
    AnnounceCounts(sv, TEST_START, TEST_START);
    AnnounceCounts(sv, TEST_START, TEST_RUNNING);
    AnnounceCounts(sv', TEST_RUNNING, TEST_START);
    AnnounceCounts(sv', TEST_RUNNING, TEST_RUNNING);
  }

  lemma ControlSafe<P, R>(sv: Server<P, R>, udp: bool, cookie: string, params: P, streams: int)
    requires Safe(sv, udp) && sv.place.InLoop? && !sv.connected
    ensures Safe(OnParameters(OnCookie(OnControl(sv), cookie), params, streams), udp)
  {
    var sv1 := OnControl(sv).(cookie := cookie, place := ReadingParameters);
    var sv2 := Announce(sv1, PARAM_EXCHANGE).(params := Some(params), numStreams := streams, place := InLoop);
    AnnounceCounts(sv1, PARAM_EXCHANGE, TEST_START);
    AnnounceCounts(sv1, PARAM_EXCHANGE, TEST_RUNNING);
    AnnounceCounts(sv2, CREATE_STREAMS, TEST_START);
    AnnounceCounts(sv2, CREATE_STREAMS, TEST_RUNNING);
    StartSafe(Announce(sv2, CREATE_STREAMS), udp);
  }

  lemma MessageSafe<P, R>(sv: Server<P, R>, udp: bool, code: int, results: R)
    requires Safe(sv, udp) && sv.place.InLoop? && sv.connected
    ensures Safe(React(sv, udp, Message(code, results)), udp)
  {
    hide Occurrences;
    var sv1 := sv.(state := code);
    var sv2 := Announce(sv1, EXCHANGE_RESULTS).(place := ReadingResults);
    var sv3 := sv2.(got := Some(results), sent := sv2.sent + [Results(sv2.own)], place := InLoop);
    AnnounceCounts(sv1, EXCHANGE_RESULTS, TEST_START);
    AnnounceCounts(sv1, EXCHANGE_RESULTS, TEST_RUNNING);
    OccurrencesMore(sv2.sent, Results(sv2.own), TEST_START);
    OccurrencesMore(sv2.sent, Results(sv2.own), TEST_RUNNING);
    AnnounceCounts(sv3, DISPLAY_RESULTS, TEST_START);
    AnnounceCounts(sv3, DISPLAY_RESULTS, TEST_RUNNING);
  }

  lemma ReactSafe<P, R>(sv: Server<P, R>, udp: bool, event: Event<P, R>)
    requires Safe(sv, udp)
    ensures Safe(React(sv, udp, event), udp)
  {
    hide Occurrences;
    if sv.place.InLoop? {
      match event
      case Connection(cookie, params, streams) =>
        if sv.state == CREATE_STREAMS {
          if !udp {
            StartSafe(if cookie == sv.cookie then sv.(accepted := sv.accepted + [Some(cookie)]) else sv, udp);
          }
        } else if !sv.connected {
          ControlSafe(sv, udp, cookie, params, streams);
        }
      case Mute =>
      case Failure =>
      case Datagram =>
        if sv.state == CREATE_STREAMS && udp {
          StartSafe(sv.(accepted := sv.accepted + [None]), udp);
        }
      case Message(code, results) =>
        if sv.connected {
          MessageSafe(sv, udp, code, results);
        }
      case Closed =>
    }
  }

  lemma {:induction false} ReactAllSafe<P, R>(sv: Server<P, R>, udp: bool, events: seq<Event<P, R>>)
    requires Safe(sv, udp)
    ensures Safe(ReactAll(sv, udp, events), udp)
    decreases |events|
  {
    hide Safe, React;
    if events != [] {
      ReactSafe(sv, udp, events[0]);
      ReactAllSafe(React(sv, udp, events[0]), udp, events[1..]);
    }
  }

  /** From the start of a server, whatever arrives, in whatever order. */
  lemma AlwaysSafe<P, R>(own: R, udp: bool, events: seq<Event<P, R>>)
    ensures Safe(ReactAll(NewServer<P, R>(own), udp, events), udp)
  {
    NewServerSafe<P, R>(own, udp);
    ReactAllSafe(NewServer<P, R>(own), udp, events);
  }

  /** A connection that is not the owner's changes nothing, if it can be answered: outside CREATE_STREAMS any
      connection, inside it one with another cookie.  It is denied, but in the CREATE_STREAMS of a UDP test, where the
      listener is not served. */
  lemma StrangerChangesNothing<P, R>(sv: Server<P, R>, udp: bool, cookie: string, params: P, streams: int)
    requires Safe(sv, udp) && sv.connected
    requires sv.state == CREATE_STREAMS ==> cookie != sv.cookie
    ensures React(sv, udp, Connection(cookie, params, streams)) == sv
    ensures sv.place.InLoop? ==>
              (Denies(sv, udp, Connection(cookie, params, streams)) <==> !(udp && sv.state == CREATE_STREAMS))
  {
  }

  /** A connection that is not the owner's, whatever it does. */
  predicate Foreign<P, R>(sv: Server<P, R>, event: Event<P, R>) {
    || event.Mute? || event.Failure?
    || (event.Connection? && (sv.state == CREATE_STREAMS ==> event.cookie != sv.cookie))
  }

  /** The state stays as it was if and only if the denial could be written, or the listener is not served.  Otherwise
      the server stops: on a mute connection in the CREATE_STREAMS of a TCP test, and on one that fails. */
  lemma UnchangedIffDenied<P, R>(sv: Server<P, R>, udp: bool, event: Event<P, R>)
    requires Safe(sv, udp) && sv.connected && sv.place.InLoop? && Foreign(sv, event)
    ensures React(sv, udp, event) == sv <==> Denies(sv, udp, event) || (udp && sv.state == CREATE_STREAMS)
    ensures React(sv, udp, event) != sv ==>
              React(sv, udp, event) == sv.(place := if event.Failure? then Broken else Blocked)
  {
  }

  /** What a server does about a state byte: it answers the end of the test only, and its loop ends with the client's
      last state, when the client terminates, and on any other state but the start of the test. */
  lemma AnswersTo<P, R>(sv: Server<P, R>, udp: bool, code: int, results: R)
    requires sv.place.InLoop? && sv.connected
    ensures var sv' := React(sv, udp, Message(code, results));
            && sv'.sent == sv.sent + (if code == TEST_END
                                      then [Code(EXCHANGE_RESULTS), Results(sv.own), Code(DISPLAY_RESULTS)]
                                      else [])
            && sv'.got == (if code == TEST_END then Some(results) else sv.got)
            && (sv'.place.InLoop? <==> code == TEST_START || code == TEST_END)
            && (sv'.place.Finished? <==> code == IPERF_DONE || code == CLIENT_TERMINATE)
            && (sv'.place.Broken? <==> code !in [TEST_START, TEST_END, IPERF_DONE, CLIENT_TERMINATE])
            && sv'.state == (if code == TEST_END then DISPLAY_RESULTS
                             else if code == CLIENT_TERMINATE then IPERF_DONE
                             else code)
            && sv' == sv.(place := sv'.place, state := sv'.state, sent := sv'.sent, got := sv'.got)
  {
  }

  // ---- the loop as it runs ----

  /** The server's struct iperf_test, with the bytes it has written to the control connection. */
  class IperfServer<P, R> {
    var state: int
    var connected: bool
    var cookie: string
    var params: Option<P>
    var numStreams: int
    var streamsAccepted: int
    var finished: bool
    var broken: bool
    var blocked: bool            // in a read that never returns
    const own: R
    var got: Option<R>
    var sent: seq<Item<P, R>>
    var denied: nat
    ghost var accepted: seq<Option<string>>

    ghost predicate Valid()
      reads this
    {
      && streamsAccepted == |accepted| && !(finished && broken) && (blocked ==> !finished && !broken)
      && (state == CREATE_STREAMS ==> connected)
    }

    /** The test has been started if all streams are there. */
    ghost predicate Incomplete()
      reads this
    {
      state == CREATE_STREAMS && !finished && !broken && !blocked ==> streamsAccepted != numStreams
    }

    ghost function View(): Server<P, R>
      reads this
    {
      Server(if finished then Finished else if broken then Broken else if blocked then Blocked else InLoop,
             state, connected, cookie, params, numStreams, accepted, own, got, sent)
    }

    constructor (own: R)
      ensures Valid() && Incomplete() && View() == NewServer(own) && denied == 0
    {
      state, connected, cookie, params, numStreams, streamsAccepted := IPERF_START, false, "", None, 1, 0;
      finished, broken, blocked, got, sent, denied := false, false, false, None, [], 0;
      this.own := own;
      accepted := [];
    }

    method SetSendState(state: int)
      modifies this`state, this`sent
      ensures this.state == state && sent == old(sent) + [Code(state)]
    {
      this.state := state;
      sent := sent + [Code(state)];
    }

    /** iperf_accept with what the connection sends: its cookie, and the frame that get_parameters reads. */
    method Accept(caller: Event<P, R>)
      requires Valid() && !finished && !broken && !blocked && state != CREATE_STREAMS
      requires caller.Connection? || caller.Mute? || caller.Failure?
      modifies this
      ensures Valid() && accepted == old(accepted)
      ensures denied == old(denied) + if old(connected) && !caller.Failure? then 1 else 0
      ensures View() == if caller.Failure? then MeetStranger(old(View()), Failing)
                        else if old(connected) then old(View())
                        else if caller.Mute? then MeetStranger(old(View()), Silent)
                        else
                          Announce(OnCookie(OnControl(old(View())), caller.cookie)
                                   .(params := Some(caller.params), numStreams := caller.streams, place := InLoop),
                                   CREATE_STREAMS)
    {
      if !connected {
        connected := true;
        if caller.Failure? {
          broken := true;
          return;
        }
        if caller.Mute? {
          blocked := true;
          return;
        }
        this.cookie := caller.cookie;
        SetSendState(PARAM_EXCHANGE);
        this.params := Some(caller.params);
        numStreams := caller.streams;
        SetSendState(CREATE_STREAMS);
      } else if caller.Failure? {
        broken := true;
      } else {
        denied := denied + 1;
      }
    }

    /** protocol->accept: for TCP a wrong cookie closes the socket, which is then not made a stream. */
    method AcceptStream(udp: bool, caller: Event<P, R>)
      requires Valid() && !finished && !broken && !blocked
      requires if udp then caller.Datagram? else caller.Connection? || caller.Mute? || caller.Failure?
      modifies this`streamsAccepted, this`accepted, this`denied, this`blocked, this`broken
      ensures Valid() && (blocked <==> caller.Mute?) && (broken <==> caller.Failure?)
      ensures denied == old(denied) + if caller.Connection? && caller.cookie != this.cookie then 1 else 0
      ensures accepted ==
              if udp then old(accepted) + [None]
              else if caller.Connection? && caller.cookie == this.cookie then old(accepted) + [Some(caller.cookie)]
              else old(accepted)
    {
      if caller.Failure? {
        broken := true;
        return;
      }
      if caller.Mute? {
        blocked := true;
        return;
      }
      var closed := false;
      if !udp && this.cookie != caller.cookie {
        denied := denied + 1;
        closed := true;
      }
      if !closed {
        streamsAccepted := streamsAccepted + 1;
        accepted := accepted + [if udp then None else Some(caller.cookie)];
      }
    }

    /** iperf_handle_message_server with the state it reads and the results frame that may follow. */
    method HandleMessage(code: int, results: R)
      requires Valid() && !finished && !broken && !blocked && connected
      modifies this
      ensures Valid() && View() == React(old(View()), false, Message(code, results)) && denied == old(denied)
      ensures state == CREATE_STREAMS ==> broken
    {
      state := code;
      if state == TEST_START {
      } else if state == TEST_END {
        SetSendState(EXCHANGE_RESULTS);
        got := Some(results);
        sent := sent + [Results(own)];
        SetSendState(DISPLAY_RESULTS);
      } else if state == IPERF_DONE {
        finished := true;
      } else if state == CLIENT_TERMINATE {
        state := IPERF_DONE;
        finished := true;
      } else {
        broken := true;
      }
    }

    /** What is ready on the control connection: a message, or its end. */
    method ServeControl(event: Event<P, R>)
      requires Valid() && !finished && !broken && !blocked && connected && (event.Message? || event.Closed?)
      modifies this
      ensures Valid() && View() == React(old(View()), false, event) && denied == old(denied)
      ensures state == CREATE_STREAMS ==> broken
    {
      if event.Message? {
        HandleMessage(event.code, event.results);
      } else {
        state := IPERF_DONE;
        finished := true;
      }
    }

    /** The comparison at the end of CREATE_STREAMS. */
    method StartTest()
      requires Valid() && !finished && !broken && !blocked
      modifies this
      ensures Valid() && Incomplete() && View() == StartIfComplete(old(View())) && denied == old(denied)
      ensures state == CREATE_STREAMS ==> View() == old(View())
    {
      if state == CREATE_STREAMS && streamsAccepted == numStreams {
        SetSendState(TEST_START);
        SetSendState(TEST_RUNNING);
      }
    }

    /** A stream, and the test is started if it was the last. */
    method ServeStream(udp: bool, caller: Event<P, R>)
      requires Valid() && !finished && !broken && !blocked && state == CREATE_STREAMS
      requires if udp then caller.Datagram? else caller.Connection? || caller.Mute? || caller.Failure?
      modifies this
      ensures Valid() && Incomplete() && View() == React(old(View()), udp, caller)
      ensures denied == old(denied) + if Denies(old(View()), udp, caller) then 1 else 0
    {
      hide StartIfComplete;
      AcceptStream(udp, caller);
      if !blocked && !broken {
        StartTest();
      }
    }

    /** A connection while no streams are expected. */
    method ServeListener(caller: Event<P, R>, udp: bool)
      requires Valid() && !finished && !broken && !blocked && state != CREATE_STREAMS
      requires caller.Connection? || caller.Mute? || caller.Failure?
      modifies this
      ensures Valid() && Incomplete() && View() == React(old(View()), udp, caller)
      ensures denied == old(denied) + if Denies(old(View()), udp, caller) then 1 else 0
    {
      Accept(caller);
      if !blocked && !broken {
        StartTest();
      }
    }

    /** One turn of the loop of iperf_run_server, with what is ready on the listener, on the control connection and on
        the socket for datagrams. */
    method Turn(udp: bool, listener: Option<Event<P, R>>, control: Option<Event<P, R>>, datagram: bool)
      requires Valid() && Incomplete()
      requires listener.Some? ==> listener.value.Connection? || listener.value.Mute? || listener.value.Failure?
      requires control.Some? ==> control.value.Message? || control.value.Closed?
      modifies this
      ensures Valid() && Incomplete()
      ensures View() == ReactAll(old(View()), udp, Served(old(View()), udp, listener, control, datagram))
      ensures denied ==
              old(denied) + Denials(old(View()), udp, Served(old(View()), udp, listener, control, datagram))
      // a server in its loop, told without Served
      ensures old(View()).place.InLoop? && old(connected) && control.Some? ==>
                View() == if old(state) != CREATE_STREAMS && listener.Some?
                          then React(React(old(View()), udp, listener.value), udp, control.value)
                          else React(old(View()), udp, control.value)
      ensures old(View()).place.InLoop? && old(state) != CREATE_STREAMS && listener.Some?
              && !(old(connected) && control.Some?) ==>
                View() == React(old(View()), udp, listener.value)
      ensures old(View()).place.InLoop? && old(state) == CREATE_STREAMS && !(old(connected) && control.Some?) ==>
                View() == if udp && datagram then React(old(View()), udp, Datagram)
                          else if !udp && listener.Some? then React(old(View()), udp, listener.value)
                          else old(View())
    {
      hide React, Denies, Denials, ReactAll;
      NothingServed(View(), udp);
      if finished || broken || blocked {
        return;
      }
      ReadyIsServed(View(), udp, listener, control, datagram);
      if state != CREATE_STREAMS {
        ServeClients(udp, listener, control);
      } else if control.Some? && connected {
        ControlOnly(View(), control.value, udp);
        ServeOne(View(), udp, control.value);
        ServeControl(control.value);
      } else if udp && datagram {
        ServeOne(View(), udp, Datagram);
        ServeStream(udp, Datagram);
      } else if !udp && listener.Some? {
        ServeOne(View(), udp, listener.value);
        ServeStream(udp, listener.value);
      }
    }

    /** A turn in which no streams are expected when it begins.  A connection that has just been accepted is not among
        the ready ones. */
    method ServeClients(udp: bool, listener: Option<Event<P, R>>, control: Option<Event<P, R>>)
      requires Valid() && Incomplete() && !finished && !broken && !blocked && state != CREATE_STREAMS
      requires listener.Some? ==> listener.value.Connection? || listener.value.Mute? || listener.value.Failure?
      requires control.Some? ==> control.value.Message? || control.value.Closed?
      modifies this
      ensures Valid() && Incomplete()
      ensures View() == ReactAll(old(View()), udp, Served(old(View()), udp, listener, control, false))
      ensures denied == old(denied) + Denials(old(View()), udp, Served(old(View()), udp, listener, control, false))
    {
      hide React, Denies, ReactAll, Denials;
      ghost var sv := View();
      ghost var events := Served(sv, udp, listener, control, false);
      NothingServed(sv, udp);
      var known := connected;
      assert listener.Some? && !(control.Some? && known) ==> events == [listener.value];
      assert listener.None? && control.Some? && known ==> events == [control.value];
      assert listener.None? && !(control.Some? && known) ==> events == [];
      if listener.Some? {
        ServeOne(sv, udp, listener.value);
        if known && control.Some? {
          ServeTwo(sv, udp, listener.value, control.value);
          assert [listener.value, control.value] == [listener.value] + [control.value];
        }
        if known {
          ConnectedStays(sv, udp, listener.value);
        }
        ServeListener(listener.value, udp);
        if broken {
          if known && control.Some? {
            StoppedStays(View(), udp, control.value);
          }
          return;
        }
      }
      if control.Some? && known {
        ControlOnly(sv, control.value, udp);
        ServeOne(sv, udp, control.value);
        ServeControl(control.value);
      }
    }
  }

  lemma NothingServed<P, R>(sv: Server<P, R>, udp: bool)
    ensures ReactAll(sv, udp, []) == sv && Denials(sv, udp, []) == 0
  {
  }

  /** What comes on the control connection has nothing to do with the transport, and denies nobody. */
  lemma ControlOnly<P, R>(sv: Server<P, R>, event: Event<P, R>, udp: bool)
    requires event.Message? || event.Closed?
    ensures React(sv, udp, event) == React(sv, false, event) && !Denies(sv, udp, event)
  {
  }

  /** A connection on a server that is not free leaves it as it was, unless it fails. */
  lemma ConnectedStays<P, R>(sv: Server<P, R>, udp: bool, event: Event<P, R>)
    requires sv.place.InLoop? && sv.connected && sv.state != CREATE_STREAMS
    requires event.Connection? || event.Mute? || event.Failure?
    ensures React(sv, udp, event) == if event.Failure? then sv.(place := Broken) else sv
  {
  }

  /** A server that has left its loop reacts to nothing. */
  lemma StoppedStays<P, R>(sv: Server<P, R>, udp: bool, event: Event<P, R>)
    requires !sv.place.InLoop?
    ensures React(sv, udp, event) == sv && !Denies(sv, udp, event)
  {
  }
}
