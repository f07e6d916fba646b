/**
 From the counts of a running test to the final report: what both sides hold for every stream after the exchange of
 results, in terms of the intervals of the sender and of the receiver; and what each side prints of the datagrams, the
 server before the exchange and the client after it.
 */
module FinalReport {
  import opened Json
  import opened UdpLoss
  import R = Results
  import T = Tally

  /** The streams of a side are those of its test. */
  ghost predicate Describes(side: R.Side, t: T.Test) {
    && side.sender == t.sender && |side.streams| == |t.streams|
    && forall k :: 0 <= k < |side.streams| ==> Matches(side.streams[k], t.streams[k])
  }

  ghost predicate Matches(s: R.Stream, c: T.Stream) {
    && s.bytesSent == c.sent && s.bytesSentOmit == c.sentOmit && s.bytesReceived == c.received
    && s.retransmits == c.retrans && s.packets == c.counts.packets && s.errors == c.counts.errors
  }

  // ---- bytes and retransmits ----

  /** What the intervals of a stream add up to, those that count or, while omitting, the omitted ones, with the bytes
      since the last of them. */
  function Transferred(t: T.Test, k: nat): int
    requires k < |t.streams|
  {
    T.Bytes(t.streams[k].intervals, t.omitting) + T.Current(t, t.streams[k])
  }

  /** What both sides hold of a stream, s where it was sent, in the test a, and r where it was received, in b. */
  ghost predicate Agreed(s: R.Stream, a: T.Test, r: R.Stream, b: T.Test, k: nat, hasRetransmits: bool)
    requires k < |a.streams| == |b.streams|
  {
    && s.bytesSent - s.bytesSentOmit == r.bytesSent - r.bytesSentOmit == Transferred(a, k)
    && s.bytesReceived == r.bytesReceived == Transferred(b, k)
    && (hasRetransmits ==>
          r.retransmits == s.retransmits == T.Retransmits(a.streams[k].intervals, a.omitting))
    && s.packets == r.packets == b.streams[k].counts.packets
    && s.errors == r.errors == b.streams[k].counts.errors
  }

  lemma StreamAgreed(s: R.Stream, s0: R.Stream, a: T.Test, r: R.Stream, r0: R.Stream, b: T.Test, k: nat, has: int)
    requires R.Settled(s, s0, r, r0, has)
    requires T.Inv(a) && T.Inv(b) && a.sender && !b.sender && k < |a.streams| == |b.streams|
    requires Matches(s0, a.streams[k]) && Matches(r0, b.streams[k])
    ensures Agreed(s, a, r, b, k, has != 0)
  {
    hide T.Bytes, T.Retransmits, T.Total;
    T.ReportIsSum(a, k);
    T.ReportIsSum(b, k);
    assert T.Balanced(b, b.streams[k]);
  }

  /** Client and server, their tests when they build their results, and the two sides after the exchange. */
  ghost predicate AllAgreed(cl: R.Side, cl': R.Side, a: T.Test, sv: R.Side, sv': R.Side, b: T.Test) {
    && |cl'.streams| == |sv'.streams| == |cl.streams| == |a.streams| == |b.streams|
    && forall k :: 0 <= k < |cl.streams| ==>
         if cl.sender then Agreed(cl'.streams[k], a, sv'.streams[k], b, k, cl.hasRetransmits != 0)
         else Agreed(sv'.streams[k], b, cl'.streams[k], a, k, sv.hasRetransmits != 0)
  }

  lemma FinalReports(cl: R.Side, a: T.Test, sv: R.Side, b: T.Test)
    requires R.Opposed(cl, sv) && Describes(cl, a) && Describes(sv, b) && T.Inv(a) && T.Inv(b)
    ensures var sv' := R.Taken(sv, Conveyed(R.ResultTree(cl))).0;
            var cl' := R.Taken(cl, Conveyed(R.ResultTree(sv'))).0;
            AllAgreed(cl, cl', a, sv, sv', b)
  {
    hide Conveyed, R.Taken, R.ResultTree, R.Settled, Agreed, Matches, R.Opposed, T.Inv;
    R.ResultsAgree(cl, sv);
    OppositeSenders(cl, sv);
    var sv' := R.Taken(sv, Conveyed(R.ResultTree(cl))).0;
    var cl' := R.Taken(cl, Conveyed(R.ResultTree(sv'))).0;
    forall k | 0 <= k < |cl.streams|
      ensures if cl.sender then Agreed(cl'.streams[k], a, sv'.streams[k], b, k, cl.hasRetransmits != 0)
              else Agreed(sv'.streams[k], b, cl'.streams[k], a, k, sv.hasRetransmits != 0)
    {
      if cl.sender {
        StreamAgreed(cl'.streams[k], cl.streams[k], a, sv'.streams[k], sv.streams[k], b, k, cl.hasRetransmits);
      } else {
        StreamAgreed(sv'.streams[k], sv.streams[k], b, cl'.streams[k], cl.streams[k], a, k, sv.hasRetransmits);
      }
    }
  }

  lemma OppositeSenders(cl: R.Side, sv: R.Side)
    requires R.Opposed(cl, sv)
    ensures cl.sender != sv.sender && |cl.streams| == |sv.streams|
  {
  }

  // ---- the end of a test ----

  /** The statistics callback with which either side ends its test closes the last intervals. */
  lemma StatsEnd(t: T.Test, times: seq<int>, totals: seq<int>, k: nat)
    requires T.Inv(t) && |times| == |totals| == |t.streams| && k < |t.streams|
    ensures var t' := T.After(t, T.Stats(times, totals));
            T.Inv(t') && T.Current(t', t'.streams[k]) == 0
  {
    hide T.Inv;
    T.StatsKeeps(t, times, totals);
  }

  /** What a side goes on to do before the exchange: the client of a reverse test drains its streams. */
  ghost predicate Draining(events: seq<T.Event>) {
    forall e <- events :: e.Received? || e.Counted?
  }

  function Drained(events: seq<T.Event>, k: nat): nat {
    if events == [] then 0
    else
      var last := events[|events| - 1];
      Drained(events[..|events| - 1], k) + if last.Received? && last.i == k then last.r else 0
  }

  lemma {:induction false} DrainingAdds(tests: seq<T.Test>, events: seq<T.Event>, k: nat)
    requires T.IsRun(tests, events) && Draining(events) && k < |tests[0].streams|
    ensures var t, t' := tests[0], tests[|events|];
            && |t'.streams| == |t.streams| && t'.omitting == t.omitting && t'.sender == t.sender
            && t'.streams[k].intervals == t.streams[k].intervals && t'.streams[k].omitted == t.streams[k].omitted
            && T.Current(t', t'.streams[k]) == T.Current(t, t.streams[k]) + Drained(events, k)
    decreases |events|
  {
    if events != [] {
      var n := |events| - 1;
      assert T.IsRun(tests[..n + 1], events[..n]);
      assert events[n] in events;
      DrainingAdds(tests[..n + 1], events[..n], k);
      assert tests[n + 1] == T.After(tests[n], events[n]);
    }
  }

  /** A receiver that has closed its intervals and gone on receiving reports their sum and what it drained; so the sum
      of its intervals if and only if it drained nothing. */
  lemma DrainedIsReported(t: T.Test, times: seq<int>, totals: seq<int>, events: seq<T.Event>, t': T.Test, k: nat)
    requires T.Inv(t) && !t.sender && |times| == |totals| == |t.streams| && k < |t.streams|
    requires Draining(events) && T.Ran(T.After(t, T.Stats(times, totals)), events, t')
    ensures T.Inv(t') && k < |t'.streams| && t'.omitting == t.omitting
    ensures T.Current(t', t'.streams[k]) == Drained(events, k)
    ensures var sum := T.Bytes(t'.streams[k].intervals, t'.omitting);
            && T.Net(t', t'.streams[k]) == Transferred(t', k) == sum + Drained(events, k)
            && (T.Net(t', t'.streams[k]) == sum <==> Drained(events, k) == 0)
  {
    hide T.Inv, T.After, T.Bytes, Drained;
    StatsEnd(t, times, totals, k);
    var t1 := T.After(t, T.Stats(times, totals));
    StatsKeepsStreams(t, times, totals);
    T.RanKeeps(t1, events, t');
    var tests :| T.IsRun(tests, events) && tests[0] == t1 && tests[|events|] == t';
    DrainingAdds(tests, events, k);
    T.ReportIsSum(t', k);
  }

  lemma StatsKeepsStreams(t: T.Test, times: seq<int>, totals: seq<int>)
    requires |times| == |totals| == |t.streams|
    ensures var t' := T.After(t, T.Stats(times, totals));
            |t'.streams| == |t.streams| && t'.omitting == t.omitting && t'.sender == t.sender
  {
  }

  /** A reverse test: the client has drained its streams, and the server has sent its last. */
  lemma ReverseTest(cl: R.Side, a0: T.Test, times: seq<int>, totals: seq<int>, events: seq<T.Event>, a: T.Test,
                    sv: R.Side, b: T.Test, k: nat)
    requires R.Opposed(cl, sv) && Describes(cl, a) && Describes(sv, b) && !cl.sender && k < |cl.streams|
    requires T.Inv(a0) && !a0.sender && |times| == |totals| == |a0.streams| && k < |a0.streams|
    requires Draining(events) && T.Ran(T.After(a0, T.Stats(times, totals)), events, a)
    requires T.Inv(b) && T.Current(b, b.streams[k]) == 0
    ensures var sv' := R.Taken(sv, Conveyed(R.ResultTree(cl))).0;
            var cl' := R.Taken(cl, Conveyed(R.ResultTree(sv'))).0;
            && k < |sv'.streams| == |cl'.streams|
            && cl'.streams[k].bytesSent - cl'.streams[k].bytesSentOmit ==
                 T.Bytes(b.streams[k].intervals, b.omitting)
            && cl'.streams[k].bytesReceived == sv'.streams[k].bytesReceived ==
                 T.Bytes(a.streams[k].intervals, a.omitting) + Drained(events, k)
            && (cl'.streams[k].bytesReceived == T.Bytes(a.streams[k].intervals, a.omitting) <==>
                  Drained(events, k) == 0)
  {
    hide Conveyed, R.Taken, R.ResultTree, R.Opposed, T.Inv, T.Ran, Draining, T.Bytes, Drained, T.Retransmits;
    DrainedIsReported(a0, times, totals, events, a, k);
    FinalReports(cl, a, sv, b);
  }

  /** One hundred bytes in the last interval, and fifty behind it. */
  lemma DrainedBehindLastInterval() returns (t0: T.Test, t1: T.Test, t2: T.Test)
    ensures t0 == T.After(T.Started(false, false, false, false, [0]), T.Received(0, 100))
    ensures |t0.streams| == 1 && t1 == T.After(t0, T.Stats([1], [0]))
    ensures |t1.streams| == 1 && !t1.sender && t2 == T.After(t1, T.Received(0, 50))
    ensures |t2.streams| == 1 && T.Net(t2, t2.streams[0]) == 150 && T.Bytes(t2.streams[0].intervals, false) == 100
  {
    hide T.Bytes, T.Closing;
    t0 := T.After(T.Started(false, false, false, false, [0]), T.Received(0, 100));
    t1 := T.After(t0, T.Stats([1], [0]));
    t2 := T.After(t1, T.Received(0, 50));
    assert T.Current(t0, t0.streams[0]) == T.Net(t0, t0.streams[0]) == 100;
    FirstInterval(t0);
    FirstBytes(t0);
    MoreReceived(t1);
  }

  lemma FirstInterval(t: T.Test)
    requires |t.streams| == 1 && t.streams[0].intervals == [] && !t.omitting
    ensures var t' := T.After(t, T.Stats([1], [0]));
            && |t'.streams| == 1 && t'.streams[0].intervals == [T.Closing(t, t.streams[0], 1, 0)]
            && T.Net(t', t'.streams[0]) == T.Net(t, t.streams[0])
  {
  }

  lemma FirstBytes(t: T.Test)
    requires |t.streams| == 1 && t.streams[0].intervals == [] && !t.omitting
    ensures T.Bytes([T.Closing(t, t.streams[0], 1, 0)], false) == T.Current(t, t.streams[0])
  {
    T.OneInterval(T.Closing(t, t.streams[0], 1, 0));
  }

  lemma MoreReceived(t: T.Test)
    requires |t.streams| == 1 && !t.sender
    ensures var t' := T.After(t, T.Received(0, 50));
            && |t'.streams| == 1 && t'.streams[0].intervals == t.streams[0].intervals
            && T.Net(t', t'.streams[0]) == 50 + T.Net(t, t.streams[0])
  {
  }

  // ---- datagrams ----

  /** Packets and losses as a side prints them: the counts it holds, less its own of the omitted period. */
  function Printed(s: R.Stream, c: T.Stream): (int, int) {
    (s.packets - c.omitted.packets, s.errors - c.omitted.errors)
  }

  function Pair(c: Counts): (int, int) {
    (c.packets, c.errors)
  }

  /** The client prints after the exchange.  One that sends prints the receiver's counts less its own omitted ones, so
      what the server, which receives, has printed before if and only if the two have omitted as much.  One that
      receives prints its own counts, and the server those that it sent. */
  lemma DatagramReports(cl: R.Side, a: T.Test, sv: R.Side, b: T.Test, k: nat)
    requires R.Opposed(cl, sv) && Describes(cl, a) && Describes(sv, b) && T.Inv(a) && T.Inv(b) && k < |cl.streams|
    ensures var sv' := R.Taken(sv, Conveyed(R.ResultTree(cl))).0;
            var cl' := R.Taken(cl, Conveyed(R.ResultTree(sv'))).0;
            && k < |cl'.streams| == |sv'.streams| && k < |sv.streams| && k < |a.streams| && k < |b.streams|
            && Printed(sv.streams[k], b.streams[k]) == Pair(T.Minus(b.streams[k].counts, b.streams[k].omitted))
            && Printed(cl'.streams[k], a.streams[k]) ==
                 Pair(T.Minus((if cl.sender then b else a).streams[k].counts, a.streams[k].omitted))
            // with the counts that both hold after the exchange
            && (Printed(cl'.streams[k], a.streams[k]) == Printed(sv'.streams[k], b.streams[k]) <==>
                  Pair(a.streams[k].omitted) == Pair(b.streams[k].omitted))
            // as they are printed, where the server receives
            && (cl.sender ==>
                  (Printed(cl'.streams[k], a.streams[k]) == Printed(sv.streams[k], b.streams[k]) <==>
                     Pair(a.streams[k].omitted) == Pair(b.streams[k].omitted)))
  {
    hide Conveyed, R.Taken, R.ResultTree, R.Opposed, T.Inv, T.Bytes, T.Retransmits, Transferred;
    FinalReports(cl, a, sv, b);
    OppositeSenders(cl, sv);
    assert Matches(sv.streams[k], b.streams[k]);
  }

  /** What a client that sends prints is what its own intervals add up to if and only if the receiver's counts exceed
      its own by what it counted between the last omitted interval and the end of the omitted period. */
  lemma SendersIntervals(s: R.Stream, t: T.Test, times: seq<int>, totals: seq<int>, k: nat, counts: Counts)
    requires T.Inv(t) && |times| == |totals| == |t.streams| && k < |t.streams| && t.udp
    requires s.packets == counts.packets && s.errors == counts.errors
    ensures var c := T.After(t, T.Stats(times, totals)).streams[k];
            var others := T.DatagramsOf(c.intervals, !t.omitting);
            Printed(s, c) == Pair(T.DatagramsOf(c.intervals, t.omitting)) <==>
              Pair(T.Minus(c.counts, counts)) == Pair(T.Minus(others, c.omitted))
  {
    hide T.DatagramsOf, T.Inv, T.After;
    T.DatagramsReported(t, times, totals, k);
  }

  /** Ten datagrams sent without an omitted period and one of them lost: the intervals of the client that sends hold ten
      and no loss, and its report the loss. */
  lemma LossNotInIntervals()
    ensures var t := T.After(T.Started(true, true, false, false, [0]), T.Counted(0, Counts(10, 0, 0)));
            var c := T.After(t, T.Stats([1], [0])).streams[0];
            && c.omitted == NONE && Pair(T.DatagramsOf(c.intervals, false)) == (10, 0)
            && forall s: R.Stream :: s.packets == 10 && s.errors == 1 ==> Printed(s, c) == (10, 1)
  {
    var t := T.After(T.Started(true, true, false, false, [0]), T.Counted(0, Counts(10, 0, 0)));
    var c := T.After(t, T.Stats([1], [0])).streams[0];
    assert c.intervals == [T.Closing(t, t.streams[0], 1, 0)];
    T.OneInterval(c.intervals[0]);
  }

  /** A receiver that has drained datagrams prints those of its intervals that count, those it drained, and less what
      came between the last omitted interval and the end of the omitted period. */
  lemma DrainedDatagrams(t: T.Test, times: seq<int>, totals: seq<int>, events: seq<T.Event>, t': T.Test, k: nat)
    requires T.Inv(t) && t.udp && |times| == |totals| == |t.streams| && k < |t.streams|
    requires Draining(events) && T.Ran(T.After(t, T.Stats(times, totals)), events, t')
    ensures k < |t'.streams|
    ensures var c, before := t'.streams[k], T.After(t, T.Stats(times, totals)).streams[k].counts;
            T.Minus(c.counts, c.omitted) ==
              T.Plus(T.Plus(T.DatagramsOf(c.intervals, t.omitting), T.Minus(c.counts, before)),
                     T.Minus(T.DatagramsOf(c.intervals, !t.omitting), c.omitted))
  {
    hide T.Inv, T.After, T.DatagramsOf;
    var t1 := T.After(t, T.Stats(times, totals));
    StatsKeepsStreams(t, times, totals);
    var tests :| T.IsRun(tests, events) && tests[0] == t1 && tests[|events|] == t';
    DrainingAdds(tests, events, k);
    T.DatagramsReported(t, times, totals, k);
  }
}
