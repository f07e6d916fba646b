/**
 The client's side of the control connection as it runs (iperf_client_api.c, iperf_run_client,
 iperf_handle_message_client and iperf_create_streams).
 */
module ClientLoop {
  import opened ProtocolSpec
  import opened Wrappers

  /** What a message makes of the client, reads that block included: all streams are connected, and the server's
      results are taken. */
  function OnMessage<P, R>(cl: Client<P, R>, code: int, results: R): Client<P, R> {
    var cl1 := OnClientCode(cl, code);
    if cl1.place.Connecting? then cl1.(place := Looping)
    else if cl1.place.AwaitingResults? then OnServerResults(cl1, results)
    else cl1
  }

  /** One turn of the loop, with the message it finds, if it finds one. */
  function OnTurn<P, R>(cl: Client<P, R>, message: Option<(int, R)>): Client<P, R> {
    if !cl.place.Looping? then cl
    else
      var cl1 := if message.Some? then OnMessage(cl, message.value.0, message.value.1) else cl;
      if cl1.place.Looping? && cl1.state == TEST_RUNNING then OnRound(cl1) else cl1
  }

  /** The client's struct iperf_test, with the bytes it has written and the data connections it has made. */
  class IperfClient<P, R> {
    var state: int
    const cookie: string
    const params: P
    const numStreams: int
    const own: R
    const reverse: bool
    var work: nat
    var got: Option<R>
    var sent: seq<Item<P, R>>
    var streams: nat
    var drained: nat             // bytes received after TEST_END
    var failed: bool

    ghost function View(): Client<P, R>
      reads this
    {
      Client(if failed then ClientBroken else if state == IPERF_DONE then ClientFinished else Looping,
             state, cookie, params, numStreams, work, own, got, sent)
    }

    /** The client after iperf_connect. */
    constructor (cookie: string, params: P, numStreams: int, work: nat, own: R, reverse: bool)
      ensures View() == OnStart(Client(Starting, 0, cookie, params, numStreams, work, own, None, []))
      ensures streams == 0 && drained == 0 && this.reverse == reverse
    {
      this.cookie, this.params, this.numStreams, this.work, this.own := cookie, params, numStreams, work, own;
      this.reverse, drained := reverse, 0;
      state, got, sent, streams, failed := 0, None, [Hello(cookie)], 0, false;
    }

    method SetSendState(state: int)
      modifies this`state, this`sent
      ensures this.state == state && sent == old(sent) + [Code(state)]
    {
      this.state := state;
      sent := sent + [Code(state)];
    }

    method CreateStreams()
      modifies this`streams
      ensures streams == old(streams) + if numStreams < 0 then 0 else numStreams
    {
      var i := 0;
      while i < numStreams
        invariant i <= numStreams || i == 0
        invariant streams == old(streams) + i
      {
        streams := streams + 1;
        i := i + 1;
      }
    }

    /** The state read, and the results frame that may follow. */
    method HandleMessage(code: int, results: R)
      requires !failed && state != IPERF_DONE
      modifies this
      ensures View() == OnMessage(old(View()), code, results)
      ensures drained == old(drained)
      ensures streams == old(streams) + if code == CREATE_STREAMS && 0 < numStreams then numStreams else 0
    {
      state := code;
      if state == PARAM_EXCHANGE {
        sent := sent + [Parameters(params, numStreams)];
      } else if state == CREATE_STREAMS {
        CreateStreams();
      } else if state == TEST_START || state == TEST_RUNNING {
      } else if state == EXCHANGE_RESULTS {
        sent := sent + [Results(own)];
        got := Some(results);
      } else if state == DISPLAY_RESULTS {
        SetSendState(IPERF_DONE);
      } else if state != IPERF_DONE {
        failed := true;
      }
    }

    /** One turn of the loop; work stands for the rounds until the test's end condition holds.  Between TEST_END and the
        exchange of results the client of a reverse test goes on receiving, here so many bytes. */
    method Turn(message: Option<(int, R)>, received: nat)
      modifies this
      ensures View() == OnTurn(old(View()), message)
      ensures drained ==
              old(drained) + if reverse && !old(failed) && old(state) == TEST_END && message.None? then received else 0
    {
      if failed || state == IPERF_DONE {
        return;
      }
      if message.Some? {
        HandleMessage(message.value.0, message.value.1);
        if failed {
          return;
        }
      }
      if state == TEST_RUNNING {
        if work > 0 {
          work := work - 1;
        } else {
          SetSendState(TEST_END);
        }
      } else if reverse && state == TEST_END {
        drained := drained + received;
      }
    }
  }

  /** What a client does about a state byte: what it sends and takes, and when its loop ends.  A server that terminates
      ends it as an unknown state does. */
  lemma AnswersTo<P, R>(cl: Client<P, R>, code: int, results: R)
    requires cl.place.Looping?
    ensures var cl' := OnMessage(cl, code, results);
            && cl'.sent == cl.sent + (if code == PARAM_EXCHANGE then [Parameters(cl.params, cl.numStreams)]
                                      else if code == EXCHANGE_RESULTS then [Results(cl.own)]
                                      else if code == DISPLAY_RESULTS then [Code(IPERF_DONE)]
                                      else [])
            && cl'.got == (if code == EXCHANGE_RESULTS then Some(results) else cl.got)
            && (cl'.place.Looping? <==>
                  code in [PARAM_EXCHANGE, CREATE_STREAMS, TEST_START, TEST_RUNNING, EXCHANGE_RESULTS])
            && (cl'.place.ClientFinished? <==> code == DISPLAY_RESULTS || code == IPERF_DONE)
            && cl'.state == (if code == DISPLAY_RESULTS then IPERF_DONE else code)
            && cl'.work == cl.work && cl'.own == cl.own && cl'.params == cl.params && cl'.numStreams == cl.numStreams
  {
  }
}
