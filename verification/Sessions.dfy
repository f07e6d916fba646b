/**
 Whole sessions of the two loops: turn after turn, among any visitors and with any losses, they are runs of the
 protocol, and one that cannot go on has finished unless something was lost.
 */
module Sessions {
  import opened ClientLoop
  import opened Protocol
  import opened ProtocolSpec
  import opened ServerLoop
  import opened Turns
  import opened Wrappers

  /** Alone: a step that belongs to no turn, or that ends one side. */
  datatype Turn<P, R> =
    | Alone(step: Step)
    | OfClient(message: bool)
    | OfServer(event: Event<P, R>)
    | Exchange
    | CutShort(n: nat, taken: bool)

  predicate IsAlone(step: Step) {
    || step.ClientStarts? || step.StrangerComes? || step.ServerMeetsStranger? || step.ServerDenies?
    || step.ClientSeesEnd? || step.ServerSeesEnd?
  }

  ghost predicate Playable<P, R>(sys: System<P, R>, turn: Turn<P, R>) {
    match turn
    case Alone(step) => IsAlone(step) && Enabled(sys, step)
    case OfClient(message) => sys.cl.place.Looping? && !sys.clOver && (message ==> Enabled(sys, ClientReads))
    case OfServer(event) => sys.sv.place.InLoop? && Happens(sys, event) && !IsEnd(event)
    case Exchange => sys.sv.place.InLoop? && Happens(sys, Message(TEST_END, sys.cl.own))
    case CutShort(n, taken) =>
      && sys.cl.place.Looping? && !sys.clOver && FirstCode(sys) == Some(CREATE_STREAMS)
      && sys.udp && n < Streams(sys.cl)
  }

  function StepsOf<P, R>(sys: System<P, R>, turn: Turn<P, R>): seq<Step> {
    match turn
    case Alone(step) => [step]
    case OfClient(message) => ClientTurnSteps(sys, message)
    case OfServer(event) => ServerTurnSteps(sys, event)
    case Exchange => EXCHANGE_STEPS
    case CutShort(n, taken) => GivingUp(n, taken)
  }

  /** No side is in the middle of a turn. */
  ghost predicate Between<P, R>(sys: System<P, R>) {
    && Inv(sys) && Quiet(sys.sv) && (sys.clOver || Settled(sys.cl)) && (sys.lost ==> sys.clOver)
  }

  predicate Quiet<P, R>(sv: Server<P, R>) {
    !sv.place.ReadingCookie? && !sv.place.ReadingParameters? && !sv.place.ReadingResults?
  }

  predicate Settled<P, R>(cl: Client<P, R>) {
    cl.place.Starting? || cl.place.Looping? || cl.place.ClientFinished? || cl.place.ClientBroken?
  }

  // ---- turns lead from one such state to the next ----

  /** Steps that neither begin nor end a read of the server, nor end the client. */
  predicate IsCalm(step: Step) {
    !step.ServerReads? && !step.ServerAccepts? && !step.DatagramLost? && !step.ClientTimesOut? && !step.ClientSeesEnd?
  }

  lemma CalmStep<P, R>(sys: System<P, R>, step: Step)
    requires Enabled(sys, step) && IsCalm(step) && Quiet(sys.sv)
    ensures var sys' := Next(sys, step);
            Quiet(sys'.sv) && sys'.lost == sys.lost && sys'.clOver == sys.clOver
  {
  }

  lemma {:induction false} CalmSteps<P, R>(sys: System<P, R>, steps: seq<Step>)
    requires CanTake(sys, steps) && (forall step <- steps :: IsCalm(step)) && Quiet(sys.sv)
    ensures var sys' := Took(sys, steps);
            Quiet(sys'.sv) && sys'.lost == sys.lost && sys'.clOver == sys.clOver
    decreases |steps|
  {
    hide Enabled, Next, Quiet, IsCalm;
    if steps != [] {
      assert steps[0] in steps;
      CalmStep(sys, steps[0]);
      CalmSteps(Next(sys, steps[0]), steps[1..]);
    }
  }

  lemma {:induction false} StreamsCalm(udp: bool, n: nat)
    ensures forall step <- StreamSteps(udp, n) :: IsCalm(step)
  {
    if n > 0 {
      StreamsCalm(udp, n - 1);
    }
  }

  /** Between two turns no exchange of results is under way. */
  lemma NoExchange<P, R>(sys: System<P, R>)
    requires Between(sys) && sys.cl.place.Looping? && !sys.clOver
    ensures FirstCode(sys) != Some(EXCHANGE_RESULTS)
  {
    hide Ordinary, Preempted, Deserted;
    if FirstCode(sys) == Some(EXCHANGE_RESULTS) {
      ReadsFifth(sys);
    }
  }

  lemma ClientCalm<P, R>(sys: System<P, R>, message: bool)
    requires Between(sys) && Playable(sys, Turn.OfClient(message))
    ensures forall step <- ClientTurnSteps(sys, message) :: IsCalm(step)
  {
    hide Inv;
    NoExchange(sys);
    StreamsCalm(sys.udp, Streams(sys.cl));
  }

  lemma TurnSettles<P, R>(cl: Client<P, R>, message: Option<(int, R)>)
    requires cl.place.Looping?
    ensures Settled(OnTurn(cl, message))
  {
  }

  lemma ReactQuiet<P, R>(sv: Server<P, R>, udp: bool, event: Event<P, R>)
    requires Quiet(sv)
    ensures Quiet(React(sv, udp, event))
  {
  }

  lemma ClientBetween<P, R>(sys: System<P, R>, message: bool)
    requires Between(sys) && Playable(sys, Turn.OfClient(message))
    ensures CanTake(sys, ClientTurnSteps(sys, message)) && Between(Took(sys, ClientTurnSteps(sys, message)))
  {
    hide Inv, Quiet, Settled, CanTake, Took, ClientTurnSteps, Enabled, IsCalm, OnTurn;
    ClientTurn(sys, message);
    ClientCalm(sys, message);
    CalmSteps(sys, ClientTurnSteps(sys, message));
    TurnSettles(sys.cl, if message then Some((FirstCode(sys).value, sys.sv.own)) else None);
  }

  /** The steps of the server's turns change nothing of what was lost. */
  lemma {:induction false} NothingLost<P, R>(sys: System<P, R>, steps: seq<Step>)
    requires CanTake(sys, steps)
    requires forall step <- steps :: !step.DatagramLost? && !step.ClientTimesOut? && !step.ClientSeesEnd?
    ensures Took(sys, steps).lost == sys.lost && Took(sys, steps).clOver == sys.clOver
    decreases |steps|
  {
    if steps != [] {
      assert steps[0] in steps;
      NothingLost(Next(sys, steps[0]), steps[1..]);
    }
  }

  lemma ServerBetween<P, R>(sys: System<P, R>, event: Event<P, R>)
    requires Between(sys) && Playable(sys, Turn.OfServer(event))
    ensures CanTake(sys, ServerTurnSteps(sys, event)) && Between(Took(sys, ServerTurnSteps(sys, event)))
  {
    hide Inv, Quiet, CanTake, Took, React, Happens;
    ServerTurn(sys, event);
    NothingLost(sys, ServerTurnSteps(sys, event));
    ReactQuiet(sys.sv, sys.udp, event);
    if event.Connection? && !sys.sv.connected {
      GreetedSettled(sys, event);
    }
  }

  lemma GreetedSettled<P, R>(sys: System<P, R>, event: Event<P, R>)
    requires Inv(sys) && sys.sv.place.InLoop? && event.Connection? && !sys.sv.connected && Happens(sys, event)
    ensures Settled(OnClientCode(sys.cl, PARAM_EXCHANGE))
  {
    Greeted(sys);
  }

  lemma ExchangeBetween<P, R>(sys: System<P, R>)
    requires Between(sys) && Playable(sys, Turn.Exchange)
    ensures CanTake(sys, EXCHANGE_STEPS) && Between(Took(sys, EXCHANGE_STEPS))
  {
    hide Ordinary, Preempted, Deserted, Quiet, Settled, CanTake, Took, React, Happens, OnTurn;
    ExchangeTurn(sys);
    CodeSent(sys, TEST_END);
    NothingLost(sys, EXCHANGE_STEPS);
    ReactQuiet(sys.sv, sys.udp, Message(TEST_END, sys.cl.own));
    TurnSettles(sys.cl, Some((EXCHANGE_RESULTS, sys.sv.own)));
  }

  lemma CutBetween<P, R>(sys: System<P, R>, n: nat, taken: bool)
    requires Between(sys) && Playable(sys, Turn.CutShort(n, taken))
    ensures CanTake(sys, GivingUp(n, taken)) && Between(Took(sys, GivingUp(n, taken)))
  {
    hide Inv, CanTake, Took, FirstCode;
    GivesUp(sys, n, taken);
    StreamsCalm(true, n);
    QuietThrough(sys, GivingUp(n, taken));
  }

  /** Without a read of the server it stays out of one. */
  lemma {:induction false} QuietThrough<P, R>(sys: System<P, R>, steps: seq<Step>)
    requires CanTake(sys, steps) && Quiet(sys.sv)
    requires forall step <- steps :: IsCalm(step) || step.DatagramLost? || step.ClientTimesOut?
    ensures Quiet(Took(sys, steps).sv)
    decreases |steps|
  {
    hide Quiet, IsCalm;
    if steps != [] {
      assert steps[0] in steps;
      if IsCalm(steps[0]) {
        CalmStep(sys, steps[0]);
      }
      QuietThrough(Next(sys, steps[0]), steps[1..]);
    }
  }

  lemma AloneBetween<P, R>(sys: System<P, R>, step: Step)
    requires Between(sys) && Playable(sys, Turn.Alone(step))
    ensures CanTake(sys, [step]) && Between(Took(sys, [step]))
  {
    hide Inv;
    TakeOne(sys, step);
    StepInv(sys, step);
  }

  lemma TurnBetween<P, R>(sys: System<P, R>, turn: Turn<P, R>)
    requires Between(sys) && Playable(sys, turn)
    ensures CanTake(sys, StepsOf(sys, turn)) && Between(Took(sys, StepsOf(sys, turn)))
  {
    hide Between, Playable, CanTake, Took;
    match turn
    case Alone(step) => AloneBetween(sys, step);
    case OfClient(message) => ClientBetween(sys, message);
    case OfServer(event) => ServerBetween(sys, event);
    case Exchange => ExchangeBetween(sys);
    case CutShort(n, taken) => CutBetween(sys, n, taken);
  }

  // ---- sessions ----

  /** The turns follow one another from the first state to the last. */
  ghost predicate IsSession<P, R>(states: seq<System<P, R>>, turns: seq<Turn<P, R>>) {
    && |states| == |turns| + 1
    && forall i :: 0 <= i < |turns| ==>
         && Playable(states[i], turns[i]) && CanTake(states[i], StepsOf(states[i], turns[i]))
         && states[i + 1] == Took(states[i], StepsOf(states[i], turns[i]))
  }

  /** Of the first n turns, those that take a step, and those that are visits. */
  ghost function Busy<P, R>(states: seq<System<P, R>>, turns: seq<Turn<P, R>>, n: nat): nat
    requires n <= |turns| <= |states|
  {
    if n == 0 then 0
    else Busy(states, turns, n - 1) + if StepsOf(states[n - 1], turns[n - 1]) != [] then 1 else 0
  }

  ghost function VisitsOf<P, R>(turns: seq<Turn<P, R>>, n: nat): nat
    requires n <= |turns|
  {
    if n == 0 then 0 else VisitsOf(turns, n - 1) + if IsVisit(turns[n - 1]) then 1 else 0
  }

  predicate IsVisit<P, R>(turn: Turn<P, R>) {
    turn.Alone? && turn.step.StrangerComes?
  }

  lemma {:induction false} VisitsConcat(a: seq<Step>, b: seq<Step>)
    ensures Visits(a + b) == Visits(a) + Visits(b)
    decreases |b|
  {
    if b == [] {
      assert a + b == a;
    } else {
      assert (a + b)[..|a + b| - 1] == a + b[..|b| - 1];
      VisitsConcat(a, b[..|b| - 1]);
    }
  }

  lemma {:induction false} NoVisits(steps: seq<Step>)
    requires forall step <- steps :: !step.StrangerComes?
    ensures Visits(steps) == 0
    decreases |steps|
  {
    if steps != [] {
      NoVisits(steps[..|steps| - 1]);
    }
  }

  lemma {:induction false} StreamsNoVisit(udp: bool, n: nat)
    ensures forall step <- StreamSteps(udp, n) :: !step.StrangerComes?
  {
    if n > 0 {
      StreamsNoVisit(udp, n - 1);
    }
  }

  lemma VisitsInTurn<P, R>(sys: System<P, R>, turn: Turn<P, R>)
    ensures Visits(StepsOf(sys, turn)) == if IsVisit(turn) then 1 else 0
  {
    if turn.Alone? {
      assert [turn.step][..0] == [];
    } else {
      StreamsNoVisit(sys.udp, Streams(sys.cl));
      if turn.CutShort? {
        StreamsNoVisit(true, turn.n);
      }
      NoVisits(StepsOf(sys, turn));
    }
  }

  lemma {:induction false} SessionIsRun<P, R>(states: seq<System<P, R>>, turns: seq<Turn<P, R>>, n: nat)
    returns (steps: seq<Step>)
    requires IsSession(states, turns) && Between(states[0]) && n < |states|
    ensures CanTake(states[0], steps) && Took(states[0], steps) == states[n] && Between(states[n])
    ensures Busy(states, turns, n) <= |steps| && Visits(steps) == VisitsOf(turns, n)
  {
    hide Between, Playable, StepsOf, CanTake, Took, IsVisit;
    if n == 0 {
      TakeNone(states[0]);
      return [];
    }
    var before := SessionIsRun(states, turns, n - 1);
    var last := StepsOf(states[n - 1], turns[n - 1]);
    TurnBetween(states[n - 1], turns[n - 1]);
    TakeMore(states[0], before, last);
    VisitsInTurn(states[n - 1], turns[n - 1]);
    VisitsConcat(before, last);
    steps := before + last;
  }

  lemma InitialBetween<P, R>(cookie: string, params: P, streams: int, work: nat, clOwn: R, svOwn: R, udp: bool)
    ensures Between(Initial(cookie, params, streams, work, clOwn, svOwn, udp))
  {
    InitialInv(cookie, params, streams, work, clOwn, svOwn, udp);
  }

  /** Turns of the two loops, in any order, among any visitors and with any loss, are a run of the protocol; those that
      do anything are no more than the measure of the first state, and two for every visit. */
  lemma LoopsRun<P, R>(states: seq<System<P, R>>, turns: seq<Turn<P, R>>)
    requires IsSession(states, turns) && Between(states[0])
    ensures exists run: seq<System<P, R>>, steps: seq<Step> ::
              IsRun(run, steps) && run[0] == states[0] && run[|steps|] == states[|turns|]
    ensures Busy(states, turns, |turns|) <= Measure(states[0]) + 2 * VisitsOf(turns, |turns|)
  {
    hide Inv, CanTake, Took, Playable, StepsOf, Measure;
    var steps := SessionIsRun(states, turns, |turns|);
    var run := TookIsRun(states[0], steps);
    RunLength(run, steps);
  }

  // ---- the turns of the server as its loop makes them ----

  /** A listener that the loop does not look at. */
  predicate Unwatched<P, R>(sys: System<P, R>) {
    sys.udp && sys.sv.state == CREATE_STREAMS
  }

  /** What the select call can find ready for the server. */
  ghost predicate IsReady<P, R>(sys: System<P, R>, listener: Option<Event<P, R>>, control: Option<Event<P, R>>,
                                datagram: bool)
  {
    && (listener.Some? ==>
          && (listener.value.Connection? || listener.value.Mute? || listener.value.Failure?)
          && (Happens(sys, listener.value) || Unwatched(sys)))
    && (control.Some? ==> (control.value.Message? || control.value.Closed?) && Happens(sys, control.value))
    && (datagram ==> Happens(sys, Datagram))
  }

  /** A single event of the server is a turn that does something. */
  lemma EventIsTurn<P, R>(sys: System<P, R>, event: Event<P, R>) returns (turn: Turn<P, R>)
    requires Between(sys) && sys.sv.place.InLoop? && Happens(sys, event)
    ensures Playable(sys, turn) && !IsVisit(turn) && StepsOf(sys, turn) != []
    ensures CanTake(sys, StepsOf(sys, turn)) && Between(Took(sys, StepsOf(sys, turn)))
    ensures Took(sys, StepsOf(sys, turn)).sv == React(sys.sv, sys.udp, event)
  {
    hide Inv, Quiet, Settled, CanTake, Took, React;
    if IsEnd(event) {
      turn := Turn.Exchange;
      ExchangeTurn(sys);
    } else {
      turn := Turn.OfServer(event);
      ServerTurn(sys, event);
    }
    TurnBetween(sys, turn);
  }

  /** Behind a stranger at the listener the control connection is as it was, if the server goes on. */
  lemma ControlBehindListener<P, R>(sys: System<P, R>, listener: Event<P, R>, control: Event<P, R>)
    requires Inv(sys) && sys.sv.place.InLoop? && sys.sv.connected && sys.sv.state != CREATE_STREAMS
    requires listener.Connection? || listener.Mute? || listener.Failure?
    requires control.Message? || control.Closed?
    requires Happens(sys, listener) && Happens(sys, control)
    ensures !IsEnd(listener) && StepsOf(sys, Turn.OfServer(listener)) == [ServerMeetsStranger]
    ensures Enabled(sys, ServerMeetsStranger)
    ensures var sys' := Next(sys, ServerMeetsStranger);
            sys'.sv.place.InLoop? ==> Happens(sys', control)
  {
  }

  /** A turn of the server's loop, with whatever is ready, is a session of one turn for each event that it serves: it
      does something unless nothing is ready, or only a listener that is not looked at. */
  lemma LoopTurnIsSession<P, R>(sys: System<P, R>, listener: Option<Event<P, R>>, control: Option<Event<P, R>>,
                                datagram: bool)
    returns (states: seq<System<P, R>>, turns: seq<Turn<P, R>>)
    requires Between(sys) && sys.sv.place.InLoop? && IsReady(sys, listener, control, datagram)
    ensures IsSession(states, turns) && states[0] == sys && Between(states[|turns|])
    ensures states[|turns|].sv == ReactAll(sys.sv, sys.udp, Served(sys.sv, sys.udp, listener, control, datagram))
    ensures forall i :: 0 <= i < |turns| ==> StepsOf(states[i], turns[i]) != [] && !IsVisit(turns[i])
    ensures control.Some? || datagram || (listener.Some? && !Unwatched(sys)) ==> turns != []
  {
    hide Inv, Quiet, Settled, CanTake, Took, React, StepsOf, Playable, ReactAll, Served, Between;
    ReadyIsServed(sys.sv, sys.udp, listener, control, datagram);
    ControlConnected(sys, control);
    states, turns := [sys], [];
    if sys.sv.state != CREATE_STREAMS && listener.Some? {
      states, turns := Serve(sys, listener.value);
      if control.Some? {
        states, turns := ServeBoth(sys, listener.value, control.value);
      }
    } else if control.Some? {
      states, turns := Serve(sys, control.value);
    } else if sys.sv.state == CREATE_STREAMS && sys.udp && datagram {
      states, turns := Serve(sys, Datagram);
    } else if sys.sv.state == CREATE_STREAMS && !sys.udp && listener.Some? {
      states, turns := Serve(sys, listener.value);
    }
    DatagramExpected(sys, datagram);
  }

  lemma ControlConnected<P, R>(sys: System<P, R>, control: Option<Event<P, R>>)
    requires control.Some? ==> (control.value.Message? || control.value.Closed?) && Happens(sys, control.value)
    ensures control.Some? ==> sys.sv.connected
  {
  }

  lemma DatagramExpected<P, R>(sys: System<P, R>, datagram: bool)
    requires datagram ==> Happens(sys, Datagram)
    ensures datagram ==> Unwatched(sys)
  {
  }

  lemma Serve<P, R>(sys: System<P, R>, event: Event<P, R>) returns (states: seq<System<P, R>>, turns: seq<Turn<P, R>>)
    requires Between(sys) && sys.sv.place.InLoop? && Happens(sys, event)
    ensures IsSession(states, turns) && |turns| == 1 && states[0] == sys && Between(states[1])
    ensures states[1].sv == React(sys.sv, sys.udp, event)
    ensures StepsOf(sys, turns[0]) != [] && !IsVisit(turns[0])
  {
    hide Between, CanTake, Took, React, StepsOf, Playable;
    var turn := EventIsTurn(sys, event);
    states, turns := [sys, Took(sys, StepsOf(sys, turn))], [turn];
  }

  /** A stranger at the listener, and what is ready on the control connection. */
  lemma ServeBoth<P, R>(sys: System<P, R>, listener: Event<P, R>, control: Event<P, R>)
    returns (states: seq<System<P, R>>, turns: seq<Turn<P, R>>)
    requires Between(sys) && sys.sv.place.InLoop? && sys.sv.connected && sys.sv.state != CREATE_STREAMS
    requires listener.Connection? || listener.Mute? || listener.Failure?
    requires control.Message? || control.Closed?
    requires Happens(sys, listener) && Happens(sys, control)
    ensures IsSession(states, turns) && 0 < |turns| && states[0] == sys && Between(states[|turns|])
    ensures states[|turns|].sv == React(React(sys.sv, sys.udp, listener), sys.udp, control)
    ensures forall i :: 0 <= i < |turns| ==> StepsOf(states[i], turns[i]) != [] && !IsVisit(turns[i])
  {
    hide Inv, CanTake, Took, React, Quiet, Settled;
    ControlBehindListener(sys, listener, control);
    var turn := Turn.OfServer(listener);
    ServerTurn(sys, listener);
    TurnBetween(sys, turn);
    TakeOne(sys, ServerMeetsStranger);
    var sys' := Next(sys, ServerMeetsStranger);
    if sys'.sv.place.InLoop? {
      var turn' := EventIsTurn(sys', control);
      states, turns := [sys, sys', Took(sys', StepsOf(sys', turn'))], [turn, turn'];
    } else {
      StoppedStays(sys'.sv, sys.udp, control);
      states, turns := [sys, sys'], [turn];
    }
  }

  // ---- the end of a session ----

  /** Nothing but visits can happen, and turns that do nothing. */
  ghost predicate Over<P(!new), R(!new)>(sys: System<P, R>) {
    forall turn: Turn<P, R> | Playable(sys, turn) :: IsVisit(turn) || StepsOf(sys, turn) == []
  }

  /** Between two turns a step that waits for nobody is the beginning of a turn. */
  lemma NextTurn<P, R>(sys: System<P, R>) returns (turn: Turn<P, R>)
    requires Between(sys) && 0 <= sys.cl.numStreams && Available(sys) && !BothFinished(sys)
    ensures Playable(sys, turn) && !IsVisit(turn) && StepsOf(sys, turn) != []
  {
    hide Inv;
    NoDeadlock(sys);
    NotGivenUp(sys);
    var step := Ready(sys);
    match step {
      case ClientReads =>
        CodeAtHand(sys);
        turn := Turn.OfClient(true);
      case ClientRound => turn := Turn.OfClient(false);
      case ServerAccepts =>
        turn := Turn.OfServer(Connection(sys.cl.cookie, sys.cl.params, sys.cl.numStreams));
      case ServerReads =>
        var code := StateAtHand(sys);
        turn := if code == TEST_END then Turn.Exchange else Turn.OfServer(Message(code, sys.cl.own));
      case ServerTakesStream =>
        StreamConnected(sys);
        turn := Turn.OfServer(if sys.udp then Datagram
                              else Connection(sys.cl.cookie, sys.cl.params, sys.cl.numStreams));
      case _ => turn := Turn.Alone(step);
    }
  }

  lemma NotGivenUp<P, R>(sys: System<P, R>)
    requires Inv(sys) && Available(sys)
    ensures !sys.clOver
  {
  }

  lemma StateAtHand<P, R>(sys: System<P, R>) returns (code: int)
    requires Between(sys) && Enabled(sys, ServerReads)
    ensures sys.cl.sent[sys.svRead] == Code(code)
  {
    Synchronised(sys);
    hide Inv;
    assert sys.cl.sent[sys.svRead] == ToServer(sys)[0];
    code := sys.cl.sent[sys.svRead].code;
  }

  lemma StreamConnected<P, R>(sys: System<P, R>)
    requires Inv(sys) && Enabled(sys, ServerTakesStream)
    ensures sys.sv.connected
  {
  }

  /** A session that cannot go on, but for visits, has finished if and only if no stranger took the server away and no
      datagram for a stream was lost, and then in agreement. */
  lemma StoppedSessionIsFinished<P(!new), R(!new)>(cookie: string, params: P, streams: nat, work: nat, clOwn: R,
                                                   svOwn: R, udp: bool, states: seq<System<P, R>>,
                                                   turns: seq<Turn<P, R>>)
    requires IsSession(states, turns) && Over(states[|turns|])
    requires states[0] == Initial(cookie, params, streams, work, clOwn, svOwn, udp)
    ensures BothFinished(states[|turns|]) <==> Available(states[|turns|])
    ensures var end := states[|turns|];
            BothFinished(end) ==>
              && end.clRead == |end.sv.sent| && end.svRead == |end.cl.sent|
              && end.sv.params == Some(params) && end.sv.numStreams == streams
              && end.sv.got == Some(clOwn) && end.cl.got == Some(svOwn)
  {
    hide Ordinary, Preempted, Deserted, CanTake, Took, Playable, StepsOf, IsVisit;
    InitialBetween(cookie, params, streams, work, clOwn, svOwn, udp);
    var steps := SessionIsRun(states, turns, |turns|);
    var run := TookIsRun(states[0], steps);
    RunKeepsOwn(run, steps, |steps|);
    var end := states[|turns|];
    if BothFinished(end) {
      FinalAgreement(end);
      if !Available(end) {
        LostUnfinished(end);
      }
    } else if Available(end) {
      var turn := NextTurn(end);
    }
  }
}
