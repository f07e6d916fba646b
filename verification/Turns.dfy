/**
 The two loops and the protocol: whatever a turn of the client's loop or a reaction of the server's does, reads that
 block included, is a run of steps of the protocol, some of them taken by the other side.
 */
module Turns {
  import opened ClientLoop
  import opened Protocol
  import opened ProtocolSpec
  import opened ServerLoop
  import opened Wrappers

  // ---- steps in a row ----

  predicate CanTake<P, R>(sys: System<P, R>, steps: seq<Step>)
    decreases |steps|
  {
    steps == [] || (Enabled(sys, steps[0]) && CanTake(Next(sys, steps[0]), steps[1..]))
  }

  function Took<P, R>(sys: System<P, R>, steps: seq<Step>): System<P, R>
    requires CanTake(sys, steps)
    decreases |steps|
  {
    if steps == [] then sys else Took(Next(sys, steps[0]), steps[1..])
  }

  lemma {:induction false} TookInv<P, R>(sys: System<P, R>, steps: seq<Step>)
    requires CanTake(sys, steps) && Inv(sys)
    ensures Inv(Took(sys, steps))
    decreases |steps|
  {
    hide Inv, Enabled, Next;
    if steps != [] {
      StepInv(sys, steps[0]);
      TookInv(Next(sys, steps[0]), steps[1..]);
    }
  }

  lemma {:induction false} TakeMore<P, R>(sys: System<P, R>, first: seq<Step>, more: seq<Step>)
    requires CanTake(sys, first) && CanTake(Took(sys, first), more)
    ensures CanTake(sys, first + more) && Took(sys, first + more) == Took(Took(sys, first), more)
    decreases |first|
  {
    hide Enabled, Next;
    if first == [] {
      assert first + more == more;
    } else {
      TakeMore(Next(sys, first[0]), first[1..], more);
      assert (first + more)[1..] == first[1..] + more;
    }
  }

  lemma TakeOne<P, R>(sys: System<P, R>, step: Step)
    requires Enabled(sys, step)
    ensures CanTake(sys, [step]) && Took(sys, [step]) == Next(sys, step)
  {
    hide Enabled, Next;
    assert [step][1..] == [];
  }

  lemma TakeThree<P, R>(sys: System<P, R>, a: Step, b: Step, c: Step)
    requires Enabled(sys, a) && Enabled(Next(sys, a), b) && Enabled(Next(Next(sys, a), b), c)
    ensures CanTake(sys, [a, b, c]) && Took(sys, [a, b, c]) == Next(Next(Next(sys, a), b), c)
  {
    hide Enabled, Next;
    TakeOne(Next(Next(sys, a), b), c);
    assert [b, c][1..] == [c] && [a, b, c][1..] == [b, c];
  }

  /** Steps in a row are a run. */
  lemma {:induction false} TookIsRun<P, R>(sys: System<P, R>, steps: seq<Step>) returns (states: seq<System<P, R>>)
    requires CanTake(sys, steps)
    ensures IsRun(states, steps) && states[0] == sys && states[|steps|] == Took(sys, steps)
    decreases |steps|
  {
    hide Enabled, Next;
    if steps == [] {
      return [sys];
    }
    var rest := TookIsRun(Next(sys, steps[0]), steps[1..]);
    states := [sys] + rest;
    forall i | 0 <= i < |steps| ensures Enabled(states[i], steps[i]) && states[i + 1] == Next(states[i], steps[i]) {
      if i > 0 {
        assert steps[i] == steps[1..][i - 1] && states[i] == rest[i - 1] && states[i + 1] == rest[i];
      }
    }
  }

  // ---- the client ----

  /** For each stream one step over TCP; over UDP the server's answer comes in between. */
  function StreamSteps(udp: bool, n: nat): seq<Step> {
    if n == 0 then []
    else (if udp then [ClientMakesStream, ServerTakesStream, ClientGetsReply] else [ClientMakesStream]) +
         StreamSteps(udp, n - 1)
  }

  function MessageSteps(udp: bool, streams: nat, code: int): seq<Step> {
    if code == CREATE_STREAMS then [ClientReads] + StreamSteps(udp, streams)
    else if code == EXCHANGE_RESULTS then [ClientReads, ServerReads, ClientReads]
    else if code == TEST_RUNNING then [ClientReads, ClientRound]
    else [ClientReads]
  }

  /** The message at hand. */
  function FirstCode<P, R>(sys: System<P, R>): Option<int> {
    if sys.clRead < |sys.sv.sent| && sys.sv.sent[sys.clRead].Code? then Some(sys.sv.sent[sys.clRead].code) else None
  }

  function ClientTurnSteps<P, R>(sys: System<P, R>, message: bool): seq<Step> {
    if message && FirstCode(sys).Some? then MessageSteps(sys.udp, Streams(sys.cl), FirstCode(sys).value)
    else if sys.cl.state == TEST_RUNNING then [ClientRound]
    else []
  }

  lemma OneStream<P, R>(sys: System<P, R>)
    requires Inv(sys) && sys.cl.place.Connecting? && sys.arrived < Streams(sys.cl) && !sys.clOver
    ensures var steps := if sys.udp then [ClientMakesStream, ServerTakesStream, ClientGetsReply]
                         else [ClientMakesStream];
            && CanTake(sys, steps)
            && Took(sys, steps).cl == MoreStreams(sys.cl, sys.arrived + 1)
            && Took(sys, steps).arrived == sys.arrived + 1 && Took(sys, steps).udp == sys.udp
            && !Took(sys, steps).clOver
  {
    if sys.udp {
      DatagramTaken(sys);
      TakeThree(sys, ClientMakesStream, ServerTakesStream, ClientGetsReply);
    } else {
      TakeOne(sys, ClientMakesStream);
    }
  }

  lemma DatagramTaken<P, R>(sys: System<P, R>)
    requires Inv(sys) && sys.cl.place.Connecting? && sys.udp && !sys.clOver
    ensures Enabled(sys, ClientMakesStream) && Enabled(Next(sys, ClientMakesStream), ServerTakesStream)
    ensures Enabled(Next(Next(sys, ClientMakesStream), ServerTakesStream), ClientGetsReply)
  {
  }

  /** The loop of iperf_create_streams, n streams further; after the last the client is back in its own loop. */
  lemma {:induction false} StreamsMade<P, R>(sys: System<P, R>, n: nat)
    requires Inv(sys) && !sys.clOver && sys.arrived + n <= Streams(sys.cl)
    requires sys.cl == MoreStreams(sys.cl, sys.arrived)
    ensures CanTake(sys, StreamSteps(sys.udp, n))
    ensures var sys' := Took(sys, StreamSteps(sys.udp, n));
            && sys'.cl == MoreStreams(sys.cl, sys.arrived + n) && sys'.arrived == sys.arrived + n
            && sys'.udp == sys.udp && !sys'.clOver
    decreases n
  {
    hide Inv, Enabled, Next, CanTake, Took;
    if n == 0 {
      TakeNone(sys);
    } else {
      var steps := if sys.udp then [ClientMakesStream, ServerTakesStream, ClientGetsReply] else [ClientMakesStream];
      OneStream(sys);
      TookInv(sys, steps);
      StreamsMade(Took(sys, steps), n - 1);
      TakeMore(sys, steps, StreamSteps(sys.udp, n - 1));
    }
  }

  lemma TakeNone<P, R>(sys: System<P, R>)
    ensures CanTake(sys, []) && Took(sys, []) == sys
  {
  }

  /** The state CREATE_STREAMS is read, and n streams are made. */
  lemma StreamsBegun<P, R>(sys: System<P, R>, n: nat)
    requires Inv(sys) && sys.cl.place.Looping? && !sys.clOver && FirstCode(sys) == Some(CREATE_STREAMS)
    requires n <= Streams(sys.cl)
    ensures var steps := [ClientReads] + StreamSteps(sys.udp, n);
            && CanTake(sys, steps) && Inv(Took(sys, steps))
            && Took(sys, steps).cl == MoreStreams(sys.cl.(state := CREATE_STREAMS), n)
            && Took(sys, steps).arrived == n && Took(sys, steps).udp == sys.udp && !Took(sys, steps).clOver
  {
    var sys' := Next(sys, ClientReads);
    TakeOne(sys, ClientReads);
    StepInv(sys, ClientReads);
    assert sys'.cl == OnClientCode(sys.cl, CREATE_STREAMS) && sys'.udp == sys.udp && !sys'.clOver;
    assert sys'.arrived == 0 by {
      ReadsSecond(sys);
    }
    hide Inv, Enabled, Next, CanTake, Took;
    StreamsMade(sys', n);
    TakeMore(sys, [ClientReads], StreamSteps(sys.udp, n));
    TookInv(sys, [ClientReads] + StreamSteps(sys.udp, n));
  }

  lemma StreamsTurn<P, R>(sys: System<P, R>)
    requires Inv(sys) && sys.cl.place.Looping? && !sys.clOver && FirstCode(sys) == Some(CREATE_STREAMS)
    ensures var steps := MessageSteps(sys.udp, Streams(sys.cl), CREATE_STREAMS);
            CanTake(sys, steps) && Took(sys, steps).cl == OnTurn(sys.cl, Some((CREATE_STREAMS, sys.sv.own)))
  {
    hide Inv, CanTake, Took;
    StreamsBegun(sys, Streams(sys.cl));
  }

  lemma ReadsSecond<P, R>(sys: System<P, R>)
    requires Inv(sys) && sys.cl.place.Looping? && FirstCode(sys) == Some(CREATE_STREAMS)
    ensures sys.clRead == 1 && sys.arrived == 0
  {
  }

  lemma ResultsTurn<P, R>(sys: System<P, R>)
    requires Inv(sys) && sys.cl.place.Looping? && !sys.clOver && FirstCode(sys) == Some(EXCHANGE_RESULTS)
    ensures var steps := [ClientReads, ServerReads, ClientReads];
            CanTake(sys, steps) && Took(sys, steps).cl == OnTurn(sys.cl, Some((EXCHANGE_RESULTS, sys.sv.own)))
  {
    ReadsFifth(sys);
    var sys1 := Next(sys, ClientReads);
    var sys2 := Next(sys1, ServerReads);
    assert sys1.cl.sent[3] == Results(sys.cl.own);
    assert sys2.sv.sent[5] == Results(sys.sv.own);
    TakeThree(sys, ClientReads, ServerReads, ClientReads);
  }

  lemma ReadsFifth<P, R>(sys: System<P, R>)
    requires Inv(sys) && sys.cl.place.Looping? && !sys.clOver && FirstCode(sys) == Some(EXCHANGE_RESULTS)
    ensures sys.clRead == 4 && |sys.cl.sent| == 3
    ensures sys.svRead == 3 && |sys.sv.sent| == 5 && sys.sv.place.ReadingResults? && sys.sv.connected
  {
  }

  lemma OtherTurn<P, R>(sys: System<P, R>, code: int)
    requires Inv(sys) && sys.cl.place.Looping? && !sys.clOver && FirstCode(sys) == Some(code)
    requires code != CREATE_STREAMS && code != EXCHANGE_RESULTS
    ensures var steps := MessageSteps(sys.udp, Streams(sys.cl), code);
            CanTake(sys, steps) && Took(sys, steps).cl == OnTurn(sys.cl, Some((code, sys.sv.own)))
  {
    hide Inv;
    var sys' := Next(sys, ClientReads);
    TakeOne(sys, ClientReads);
    assert sys'.cl == OnClientCode(sys.cl, code);
    if code == TEST_RUNNING {
      TakeOne(sys', ClientRound);
      TakeMore(sys, [ClientReads], [ClientRound]);
      assert [ClientReads] + [ClientRound] == [ClientReads, ClientRound];
    }
  }

  /** A turn of the client's loop, with the message that is at hand or without one. */
  lemma ClientTurn<P, R>(sys: System<P, R>, message: bool)
    requires Inv(sys) && sys.cl.place.Looping? && !sys.clOver && (message ==> Enabled(sys, ClientReads))
    ensures message ==> FirstCode(sys).Some?
    ensures CanTake(sys, ClientTurnSteps(sys, message))
    ensures var sys' := Took(sys, ClientTurnSteps(sys, message));
            && Inv(sys')
            && sys'.cl == OnTurn(sys.cl, if message then Some((FirstCode(sys).value, sys.sv.own)) else None)
  {
    if message {
      CodeAtHand(sys);
    }
    hide Inv, Next, CanTake, Took;
    if message {
      var code := FirstCode(sys).value;
      if code == CREATE_STREAMS {
        StreamsTurn(sys);
      } else if code == EXCHANGE_RESULTS {
        ResultsTurn(sys);
      } else {
        OtherTurn(sys, code);
      }
    } else if sys.cl.state == TEST_RUNNING {
      TakeOne(sys, ClientRound);
      RoundOnly(sys);
    } else {
      TakeNone(sys);
    }
    TookInv(sys, ClientTurnSteps(sys, message));
  }

  lemma RoundOnly<P, R>(sys: System<P, R>)
    requires Enabled(sys, ClientRound)
    ensures Next(sys, ClientRound).cl == OnRound(sys.cl)
  {
  }

  lemma CodeAtHand<P, R>(sys: System<P, R>)
    requires Inv(sys) && sys.cl.place.Looping? && Enabled(sys, ClientReads)
    ensures FirstCode(sys).Some?
  {
    Synchronised(sys);
  }

  // ---- the server ----

  /** What can happen to the server in its loop: its client connects, makes a stream, sends a state or is gone, or the
      stranger who waits is met. */
  ghost predicate Happens<P, R>(sys: System<P, R>, event: Event<P, R>) {
    match event
    case Connection(cookie, params, streams) =>
      if !sys.sv.connected then
        sys.cl.sent != [] && cookie == sys.cl.cookie && params == sys.cl.params && streams == sys.cl.numStreams
      else if cookie == sys.cl.cookie then Enabled(sys, ServerTakesStream) && !sys.udp
      else Enabled(sys, ServerMeetsStranger) && sys.strangers[0] == Sends(cookie)
    case Mute => Enabled(sys, ServerMeetsStranger) && sys.strangers[0] == Silent
    case Failure => Enabled(sys, ServerMeetsStranger) && sys.strangers[0] == Failing
    case Datagram => Enabled(sys, ServerTakesStream) && sys.udp
    case Message(code, results) =>
      sys.svRead < |sys.cl.sent| && sys.cl.sent[sys.svRead] == Code(code) && results == sys.cl.own && sys.sv.connected
    case Closed => Enabled(sys, ServerSeesEnd)
  }

  function ServerTurnSteps<P, R>(sys: System<P, R>, event: Event<P, R>): seq<Step> {
    match event
    case Connection(cookie, _, _) =>
      if !sys.sv.connected then [ServerAccepts, ServerReads, ClientReads, ServerReads]
      else if cookie == sys.cl.cookie then [ServerTakesStream]
      else [ServerMeetsStranger]
    case Mute | Failure => [ServerMeetsStranger]
    case Datagram => [ServerTakesStream]
    case Message(code, _) => if code == TEST_END then [ServerReads, ClientReads, ServerReads] else [ServerReads]
    case Closed => [ServerSeesEnd]
  }

  /** The client is taken on: its cookie, and its parameters in answer to PARAM_EXCHANGE. */
  lemma OwnerAccepted<P, R>(sys: System<P, R>)
    requires Inv(sys) && sys.sv.place.InLoop? && !sys.sv.connected && sys.cl.sent != []
    ensures var steps := [ServerAccepts, ServerReads, ClientReads, ServerReads];
            && CanTake(sys, steps)
            && Took(sys, steps).sv ==
                 OnParameters(OnCookie(OnControl(sys.sv), sys.cl.cookie), sys.cl.params, sys.cl.numStreams)
            && Took(sys, steps).cl == OnClientCode(sys.cl, PARAM_EXCHANGE) && Took(sys, steps).clOver == sys.clOver
  {
    Greeted(sys);
    var sys1 := Next(sys, ServerAccepts);
    var sys2 := Next(sys1, ServerReads);
    var sys3 := Next(sys2, ClientReads);
    assert sys2.sv.sent == [Code(PARAM_EXCHANGE)] && sys2.sv.place.ReadingParameters?;
    assert sys3.cl.sent == [Hello(sys.cl.cookie), Parameters(sys.cl.params, sys.cl.numStreams)];
    TakeOne(sys, ServerAccepts);
    TakeThree(sys1, ServerReads, ClientReads, ServerReads);
    TakeMore(sys, [ServerAccepts], [ServerReads, ClientReads, ServerReads]);
    assert [ServerAccepts] + [ServerReads, ClientReads, ServerReads] ==
           [ServerAccepts, ServerReads, ClientReads, ServerReads];
  }

  lemma Greeted<P, R>(sys: System<P, R>)
    requires Inv(sys) && sys.sv.place.InLoop? && !sys.sv.connected && sys.cl.sent != []
    ensures sys.cl.sent == [Hello(sys.cl.cookie)] && sys.cl.place.Looping? && sys.clRead == 0 == sys.svRead
    ensures sys.sv.sent == [] && !sys.clOver
  {
  }

  /** TEST_END is answered, the client's results are read and the server's sent. */
  lemma EndServed<P, R>(sys: System<P, R>, code: int)
    requires Inv(sys) && sys.sv.place.InLoop? && Happens(sys, Message(code, sys.cl.own))
    ensures var steps := ServerTurnSteps(sys, Message(code, sys.cl.own));
            && CanTake(sys, steps)
            && Took(sys, steps).sv == React(sys.sv, sys.udp, Message(code, sys.cl.own))
            && (code != TEST_END ==> Took(sys, steps).cl == sys.cl)
  {
    hide Inv;
    CodeSent(sys, code);
    if code == TEST_END {
      var sys1 := Next(sys, ServerReads);
      var sys2 := Next(sys1, ClientReads);
      assert sys1.sv.sent[4] == Code(EXCHANGE_RESULTS) && sys1.sv.place.ReadingResults?;
      assert sys2.cl.sent[3] == Results(sys.cl.own);
      TakeThree(sys, ServerReads, ClientReads, ServerReads);
    } else {
      TakeOne(sys, ServerReads);
    }
  }

  lemma CodeSent<P, R>(sys: System<P, R>, code: int)
    requires Inv(sys) && sys.sv.place.InLoop? && Happens(sys, Message(code, sys.cl.own))
    ensures code == TEST_END || code == IPERF_DONE
    ensures code == TEST_END ==>
              && sys.svRead == 2 && |sys.cl.sent| == 3 && sys.clRead == 4 == |sys.sv.sent| && sys.cl.place.Looping?
              && !sys.clOver
  {
  }

  /** The turns in which the two sides exchange results overlap: the client finishes its own behind the server's. */
  lemma ExchangeTurn<P, R>(sys: System<P, R>)
    requires Inv(sys) && sys.sv.place.InLoop? && Happens(sys, Message(TEST_END, sys.cl.own))
    ensures CanTake(sys, EXCHANGE_STEPS) && Inv(Took(sys, EXCHANGE_STEPS))
    ensures Took(sys, EXCHANGE_STEPS).sv == React(sys.sv, sys.udp, Message(TEST_END, sys.cl.own))
    ensures Took(sys, EXCHANGE_STEPS).cl == OnTurn(sys.cl, Some((EXCHANGE_RESULTS, sys.sv.own)))
  {
    hide Inv, Next, Enabled, React, OnTurn;
    var sys3 := ServerPart(sys);
    TakeOne(sys3, ClientReads);
    TakeMore(sys, [ServerReads, ClientReads, ServerReads], [ClientReads]);
    assert [ServerReads, ClientReads, ServerReads] + [ClientReads] == EXCHANGE_STEPS;
    TookInv(sys, EXCHANGE_STEPS);
  }

  /** Up to the server's results, which the client is about to read. */
  lemma ServerPart<P, R>(sys: System<P, R>) returns (sys3: System<P, R>)
    requires Inv(sys) && sys.sv.place.InLoop? && Happens(sys, Message(TEST_END, sys.cl.own))
    ensures CanTake(sys, [ServerReads, ClientReads, ServerReads])
    ensures sys3 == Took(sys, [ServerReads, ClientReads, ServerReads]) && Enabled(sys3, ClientReads)
    ensures sys3.sv == React(sys.sv, sys.udp, Message(TEST_END, sys.cl.own)) == Next(sys3, ClientReads).sv
    ensures Next(sys3, ClientReads).cl == OnTurn(sys.cl, Some((EXCHANGE_RESULTS, sys.sv.own)))
  {
    hide Inv;
    CodeSent(sys, TEST_END);
    var sys1 := Next(sys, ServerReads);
    var sys2 := Next(sys1, ClientReads);
    assert sys1.sv.sent[4] == Code(EXCHANGE_RESULTS) && sys1.sv.place.ReadingResults?;
    assert sys2.cl.sent[3] == Results(sys.cl.own);
    sys3 := Next(sys2, ServerReads);
    assert sys3.sv.sent[5] == Results(sys.sv.own);
    TakeThree(sys, ServerReads, ClientReads, ServerReads);
  }

  const EXCHANGE_STEPS: seq<Step> := [ServerReads, ClientReads, ServerReads, ClientReads]

  predicate IsEnd<P, R>(event: Event<P, R>) {
    event.Message? && event.code == TEST_END
  }

  /** A reaction of the server's loop to what its client or a stranger does. */
  lemma ServerTurn<P, R>(sys: System<P, R>, event: Event<P, R>)
    requires Inv(sys) && sys.sv.place.InLoop? && Happens(sys, event)
    ensures CanTake(sys, ServerTurnSteps(sys, event))
    ensures var sys' := Took(sys, ServerTurnSteps(sys, event));
            && Inv(sys') && sys'.sv == React(sys.sv, sys.udp, event)
            && (!IsEnd(event) ==>
                  sys'.cl == if event.Connection? && !sys.sv.connected then OnClientCode(sys.cl, PARAM_EXCHANGE)
                             else sys.cl)
  {
    hide Inv, CanTake, Took, OnParameters, OnCookie, OnControl, StartIfComplete;
    match event {
      case Connection(cookie, params, streams) =>
        if !sys.sv.connected {
          OwnerAccepted(sys);
          FreshServer(sys);
        } else if cookie == sys.cl.cookie {
          TakeOne(sys, ServerTakesStream);
        } else {
          TakeOne(sys, ServerMeetsStranger);
        }
      case Mute | Failure => TakeOne(sys, ServerMeetsStranger);
      case Datagram => TakeOne(sys, ServerTakesStream);
      case Message(code, results) => EndServed(sys, code);
      case Closed => TakeOne(sys, ServerSeesEnd);
    }
    TookInv(sys, ServerTurnSteps(sys, event));
  }

  lemma FreshServer<P, R>(sys: System<P, R>)
    requires Inv(sys) && sys.sv.place.InLoop? && !sys.sv.connected
    ensures sys.sv.state != CREATE_STREAMS
  {
  }

  // ---- a turn that is cut short ----

  /** The client has made n streams over UDP and waits for the answer to its next datagram, which was taken or not, and
      gives up. */
  function GivingUp(n: nat, taken: bool): seq<Step> {
    [ClientReads] + StreamSteps(true, n) +
    ([ClientMakesStream] + (if taken then [ServerTakesStream] else []) + [DatagramLost, ClientTimesOut])
  }

  lemma GivesUp<P, R>(sys: System<P, R>, n: nat, taken: bool)
    requires Inv(sys) && sys.cl.place.Looping? && !sys.clOver && FirstCode(sys) == Some(CREATE_STREAMS)
    requires sys.udp && n < Streams(sys.cl)
    ensures CanTake(sys, GivingUp(n, taken)) && Inv(Took(sys, GivingUp(n, taken)))
    ensures Took(sys, GivingUp(n, taken)).clOver
  {
    StreamsBegun(sys, n);
    hide Inv, CanTake, Took;
    var first := [ClientReads] + StreamSteps(true, n);
    LastDatagram(Took(sys, first), taken);
    TakeMore(sys, first,
             [ClientMakesStream] + (if taken then [ServerTakesStream] else []) + [DatagramLost, ClientTimesOut]);
    TookInv(sys, GivingUp(n, taken));
  }

  lemma LastDatagram<P, R>(sys: System<P, R>, taken: bool)
    requires Inv(sys) && sys.cl.place.Connecting? && !sys.clOver && sys.udp
    ensures var steps := [ClientMakesStream] + (if taken then [ServerTakesStream] else []) +
                         [DatagramLost, ClientTimesOut];
            CanTake(sys, steps) && Took(sys, steps).clOver
  {
    if taken {
      DatagramTaken(sys);
      AnswerLost(sys);
    } else {
      RequestLost(sys);
    }
  }

  lemma RequestLost<P, R>(sys: System<P, R>)
    requires Inv(sys) && sys.cl.place.Connecting? && !sys.clOver && sys.udp
    ensures var steps := [ClientMakesStream] + [] + [DatagramLost, ClientTimesOut];
            CanTake(sys, steps) && Took(sys, steps).clOver
  {
    NothingLostYet(sys);
    hide Inv;
    TakeThree(sys, ClientMakesStream, DatagramLost, ClientTimesOut);
    assert [ClientMakesStream] + [] + [DatagramLost, ClientTimesOut] ==
           [ClientMakesStream, DatagramLost, ClientTimesOut];
  }

  lemma AnswerLost<P, R>(sys: System<P, R>)
    requires Inv(sys) && sys.cl.place.Connecting? && !sys.clOver && sys.udp
    requires Enabled(sys, ClientMakesStream) && Enabled(Next(sys, ClientMakesStream), ServerTakesStream)
    ensures var steps := [ClientMakesStream] + [ServerTakesStream] + [DatagramLost, ClientTimesOut];
            CanTake(sys, steps) && Took(sys, steps).clOver
  {
    NothingLostYet(sys);
    TakeOne(sys, ClientMakesStream);
    AnswerAwaited(sys);
    hide Inv, Enabled, Next;
    TakeThree(Next(sys, ClientMakesStream), ServerTakesStream, DatagramLost, ClientTimesOut);
    TakeMore(sys, [ClientMakesStream], [ServerTakesStream, DatagramLost, ClientTimesOut]);
    assert [ClientMakesStream] + [ServerTakesStream] + [DatagramLost, ClientTimesOut] ==
           [ClientMakesStream] + [ServerTakesStream, DatagramLost, ClientTimesOut];
  }

  lemma AnswerAwaited<P, R>(sys: System<P, R>)
    requires Enabled(sys, ClientMakesStream) && Enabled(Next(sys, ClientMakesStream), ServerTakesStream)
    requires sys.udp && !sys.lost && !sys.clOver
    ensures var sys2 := Next(Next(sys, ClientMakesStream), ServerTakesStream);
            && Enabled(sys2, DatagramLost) && Enabled(Next(sys2, DatagramLost), ClientTimesOut)
            && Next(Next(sys2, DatagramLost), ClientTimesOut).clOver
  {
    hide OnUdpStream, OnTcpStream;
  }

  lemma NothingLostYet<P, R>(sys: System<P, R>)
    requires Inv(sys) && sys.cl.place.Connecting?
    ensures !sys.lost
  {
  }
}
