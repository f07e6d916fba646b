/**
 The loops over the streams that receive, close the intervals and clear the counts.
 */
module TallyMethods {
  import opened Tally
  import opened UdpLoss

  /** The first error of a ready stream and where it is, or 0 and the number of streams. */
  function FirstFailure(results: seq<int>, ready: seq<bool>, i: nat): (r: (int, nat))
    requires |results| == |ready| && i <= |results|
    ensures i <= r.1 <= |results|
    decreases |results| - i
  {
    if i == |results| then (0, i)
    else if ready[i] && results[i] < 0 then (results[i], i)
    else FirstFailure(results, ready, i + 1)
  }

  /** What the ready ones of the first n streams receive. */
  function Receptions(results: seq<int>, ready: seq<bool>, n: nat): seq<Event>
    requires n <= |results| == |ready|
  {
    if n == 0 then []
    else
      Receptions(results, ready, n - 1) +
      if ready[n - 1] && 0 <= results[n - 1] then [Received(n - 1, results[n - 1])] else []
  }

  /** The place of the first ready stream that fails. */
  lemma {:induction false} FirstFailureIs(results: seq<int>, ready: seq<bool>, i: nat)
    requires |results| == |ready| && i <= |results|
    ensures var (r, n) := FirstFailure(results, ready, i);
            && (forall k :: i <= k < n && ready[k] ==> 0 <= results[k])
            && (if n < |results| then ready[n] && results[n] < 0 && r == results[n] else r == 0)
    decreases |results| - i
  {
    if i < |results| && !(ready[i] && results[i] < 0) {
      FirstFailureIs(results, ready, i + 1);
    }
  }

  /** One reception for each of them that is ready and does not fail, in their order. */
  lemma {:induction false} ReceptionsAre(results: seq<int>, ready: seq<bool>, n: nat)
    requires n <= |results| == |ready|
    ensures forall k: nat :: k < |results| && 0 <= results[k] ==>
              (Received(k, results[k]) in Receptions(results, ready, n) <==> k < n && ready[k])
    ensures forall e <- Receptions(results, ready, n) :: e.Received? && e.i < n && e.r == results[e.i]
    ensures InOrder(Receptions(results, ready, n))
  {
    if n > 0 {
      ReceptionsAre(results, ready, n - 1);
      OneBehind(Receptions(results, ready, n - 1), n - 1, results[n - 1]);
      assert Receptions(results, ready, n - 1) + [] == Receptions(results, ready, n - 1);
    }
  }

  ghost predicate InOrder(events: seq<Event>) {
    forall a, b :: 0 <= a < b < |events| ==> events[a].Received? && events[b].Received? && events[a].i < events[b].i
  }

  lemma OneBehind(events: seq<Event>, i: nat, r: int)
    requires InOrder(events) && forall e <- events :: e.Received? && e.i < i
    ensures 0 <= r ==> InOrder(events + [Received(i, r)])
  {
    assert forall a :: 0 <= a < |events| ==> events[a] in events;
  }

  class IperfTest {
    var sender: bool
    var udp: bool
    var hasRetransmits: bool
    var omitting: bool
    var sent: nat
    var blocks: nat
    var streams: seq<Stream>

    ghost function View(): Test
      reads this
    {
      Test(sender, udp, hasRetransmits, omitting, sent, blocks, streams)
    }

    constructor (sender: bool, udp: bool, hasRetransmits: bool, omitting: bool, starts: seq<int>)
      ensures View() == Started(sender, udp, hasRetransmits, omitting, starts) && Inv(View())
    {
      this.sender, this.udp, this.hasRetransmits, this.omitting := sender, udp, hasRetransmits, omitting;
      sent, blocks := 0, 0;
      streams := seq(|starts|, i requires 0 <= i < |starts| => NewStream(starts[i]));
      new;
      StartedInv(sender, udp, hasRetransmits, omitting, starts);
    }

    /** iperf_recv, with what the receive function of each stream returns, if its socket is ready; it stops at an
        error. */
    method Recv(results: seq<int>, ready: seq<bool>) returns (r: int, ghost events: seq<Event>)
      requires !sender && |results| == |ready| == |streams|
      modifies this`streams, this`sent, this`blocks
      ensures Ran(old(View()), events, View())
      ensures old(Inv(View())) ==> Inv(View())
      ensures r == FirstFailure(results, ready, 0).0
      ensures events == Receptions(results, ready, FirstFailure(results, ready, 0).1)
    {
      hide Ran, Inv;
      ghost var first := View();
      events := [];
      RanNothing(first);
      var i: nat := 0;
      while i < |streams|
        invariant i <= |streams| == |results| && !sender
        invariant Ran(first, events, View()) && events == Receptions(results, ready, i)
        invariant FirstFailure(results, ready, i) == FirstFailure(results, ready, 0)
      {
        if ready[i] {
          var n := results[i];
          if n < 0 {
            if Inv(first) {
              RanKeeps(first, events, View());
            }
            return n, events;
          }
          RanMore(first, events, View(), Received(i, n));
          var s := streams[i];
          streams := streams[i := s.(received := s.received + n, receivedNow := s.receivedNow + n)];
          sent, blocks := sent + n, blocks + 1;
          events := events + [Received(i, n)];
        }
        i := i + 1;
      }
      r := 0;
      if Inv(first) {
        RanKeeps(first, events, View());
      }
    }

    /** iperf_stats_callback, with what the clock says at each stream, and the system of its retransmits. */
    method StatsCallback(times: seq<int>, totals: seq<int>)
      requires |times| == |totals| == |streams|
      modifies this`streams
      ensures View() == After(old(View()), Stats(times, totals))
      ensures old(Inv(View())) ==> Inv(View())
    {
      hide Inv;
      ghost var first := View();
      var i: nat := 0;
      while i < |streams|
        modifies this`streams
        invariant i <= |streams| == |first.streams|
        invariant forall k :: 0 <= k < i ==> streams[k] == Closed(first, first.streams[k], times[k], totals[k])
        invariant forall k :: i <= k < |streams| ==> streams[k] == first.streams[k]
      {
        var s := CloseInterval(streams[i], times[i], totals[i]);
        CloseAs(View(), first, streams[i], times[i], totals[i]);
        streams := streams[i := s];
        i := i + 1;
      }
      if Inv(first) {
        AfterKeeps(first, Stats(times, totals));
      }
    }

    /** The new interval at the end of the list of a stream, and the counters of the interval cleared. */
    method CloseInterval(s: Stream, now: int, total: int) returns (s': Stream)
      ensures s' == Closed(View(), s, now, total)
    {
      var bytes := if sender then s.sentNow else s.receivedNow;
      var start := if s.intervals != [] then s.endTime else s.startTime;
      var part, whole, retrans := NONE, NONE, 0;
      s' := s.(endTime := now);
      if !udp {
        if sender && hasRetransmits {
          retrans := total - s.prevTotal;
          s' := s'.(retrans := s.retrans + retrans, prevTotal := total);
        }
      } else {
        whole := s.counts;
        if s.intervals == [] {
          part := s.counts;
        } else {
          var last := s.intervals[|s.intervals| - 1].whole;
          part := Counts(s.counts.packets - last.packets, s.counts.errors - last.errors,
                         s.counts.outOfOrder - last.outOfOrder);
        }
      }
      var interval := Interval(bytes, start, now, omitting, part, whole, retrans);
      s' := s'.(intervals := s.intervals + [interval], sentNow := 0, receivedNow := 0);
    }

    /** The omit timer: omitting is over, and iperf_reset_stats clears the counts. */
    method EndOmitting(now: int, totals: seq<int>)
      requires omitting && |totals| == |streams|
      modifies this`omitting, this`sent, this`blocks, this`streams
      ensures View() == After(old(View()), OmitOver(now, totals))
      ensures old(Inv(View())) ==> Inv(View())
    {
      hide Inv;
      ghost var first := View();
      omitting := false;
      sent, blocks := 0, 0;
      var i: nat := 0;
      while i < |streams|
        modifies this`streams
        invariant i <= |streams| == |first.streams|
        invariant forall k :: 0 <= k < i ==> streams[k] == Cleared(first, first.streams[k], now, totals[k])
        invariant forall k :: i <= k < |streams| ==> streams[k] == first.streams[k]
      {
        var s := streams[i];
        s := s.(omitted := s.counts, sentOmit := s.sent, received := 0, sentNow := 0, receivedNow := 0);
        if sender && hasRetransmits {
          s := s.(prevTotal := totals[i]);
        }
        s := s.(retrans := 0, startTime := now);
        streams := streams[i := s];
        i := i + 1;
      }
      assert streams == After(first, OmitOver(now, totals)).streams;
      if Inv(first) {
        AfterKeeps(first, OmitOver(now, totals));
      }
    }
  }

  /** The streams of a test have no part in how one of them is closed. */
  lemma CloseAs(t: Test, t': Test, s: Stream, now: int, total: int)
    requires t'.sender == t.sender && t'.udp == t.udp && t'.omitting == t.omitting
    requires t'.hasRetransmits == t.hasRetransmits
    ensures Closed(t, s, now, total) == Closed(t', s, now, total)
  {
  }
}
