/**
 The counts of a running test (iperf_api.c, iperf_send, iperf_recv, iperf_stats_callback and iperf_reset_stats;
 iperf_tcp.c and iperf_udp.c): what the intervals add up to, through the end of the omitted period.
 */
module Tally {
  import opened UdpLoss

  datatype Interval = Interval(
    bytes: int,
    start: int,
    end: int,
    omitted: bool,
    part: Counts,     // datagrams of this interval
    whole: Counts,    // and of the stream up to its end
    retrans: int)     // segments sent again in this interval

  datatype Stream = Stream(
    sent: nat,
    sentOmit: nat,
    received: nat,
    sentNow: nat,       // bytes_sent_this_interval
    receivedNow: nat,
    startTime: int,
    endTime: int,
    counts: Counts,
    omitted: Counts,    // of the omitted period, left out of the report
    retrans: int,
    prevTotal: int,     // what the system had counted at the last interval
    intervals: seq<Interval>)

  datatype Test = Test(
    sender: bool,
    udp: bool,
    hasRetransmits: bool,
    omitting: bool,
    sent: nat,          // bytes_sent of the test, which a receiver uses as well
    blocks: nat,
    streams: seq<Stream>)

  function NewStream(start: int): Stream {
    Stream(0, 0, 0, 0, 0, start, 0, NONE, NONE, 0, 0, [])
  }

  // ---- what happens to a test ----

  datatype Event =
    | Sent(i: nat, r: nat)
    | Received(i: nat, r: nat)
    | Counted(i: nat, counts: Counts)
    | Stats(times: seq<int>, totals: seq<int>) // for each stream what the clock says, and the system of retransmits
    | OmitOver(now: int, totals: seq<int>)

  predicate Possible(t: Test, e: Event) {
    match e
    case Sent(i, _) => t.sender && i < |t.streams|
    case Received(i, _) => !t.sender && i < |t.streams|
    case Counted(i, _) => i < |t.streams|
    case Stats(times, totals) => |times| == |totals| == |t.streams|
    case OmitOver(_, totals) => t.omitting && |totals| == |t.streams|
  }

  function Minus(a: Counts, b: Counts): Counts {
    Counts(a.packets - b.packets, a.errors - b.errors, a.outOfOrder - b.outOfOrder)
  }

  function Plus(a: Counts, b: Counts): Counts {
    Counts(a.packets + b.packets, a.errors + b.errors, a.outOfOrder + b.outOfOrder)
  }

  predicate CountsRetransmits(t: Test) {
    t.sender && t.hasRetransmits && !t.udp
  }

  /** The interval that ends now; its datagrams are counted for UDP only, and its retransmits where the system tells. */
  function Closing(t: Test, s: Stream, now: int, total: int): Interval {
    var first := s.intervals == [];
    Interval(if t.sender then s.sentNow else s.receivedNow,
             if first then s.startTime else s.endTime,
             now,
             t.omitting,
             if !t.udp then NONE else if first then s.counts else Minus(s.counts, s.intervals[|s.intervals| - 1].whole),
             if !t.udp then NONE else s.counts,
             if CountsRetransmits(t) then total - s.prevTotal else 0)
  }

  function Closed(t: Test, s: Stream, now: int, total: int): Stream {
    var interval := Closing(t, s, now, total);
    s.(intervals := s.intervals + [interval], endTime := now, sentNow := 0, receivedNow := 0,
       retrans := s.retrans + interval.retrans, prevTotal := if CountsRetransmits(t) then total else s.prevTotal)
  }

  function Cleared(t: Test, s: Stream, now: int, total: int): Stream {
    s.(omitted := s.counts, sentOmit := s.sent, received := 0, sentNow := 0, receivedNow := 0, retrans := 0,
       prevTotal := if t.sender && t.hasRetransmits then total else s.prevTotal, startTime := now)
  }

  function After(t: Test, e: Event): Test
    requires Possible(t, e)
  {
    match e
    case Sent(i, r) =>
      var s := t.streams[i];
      t.(streams := t.streams[i := s.(sent := s.sent + r, sentNow := s.sentNow + r)],
         sent := t.sent + r, blocks := t.blocks + 1)
    case Received(i, r) =>
      var s := t.streams[i];
      t.(streams := t.streams[i := s.(received := s.received + r, receivedNow := s.receivedNow + r)],
         sent := t.sent + r, blocks := t.blocks + 1)
    case Counted(i, counts) => t.(streams := t.streams[i := t.streams[i].(counts := counts)])
    case Stats(times, totals) =>
      t.(streams := seq(|t.streams|, i requires 0 <= i < |t.streams| => Closed(t, t.streams[i], times[i], totals[i])))
    case OmitOver(now, totals) =>
      t.(omitting := false, sent := 0, blocks := 0,
         streams := seq(|t.streams|, i requires 0 <= i < |t.streams| => Cleared(t, t.streams[i], now, totals[i])))
  }

  // ---- what stays true ----

  /** The bytes of the current interval, and those the side reports as transferred. */
  function Current(t: Test, s: Stream): int {
    if t.sender then s.sentNow else s.receivedNow
  }

  function Net(t: Test, s: Stream): int {
    if t.sender then s.sent - s.sentOmit else s.received
  }

  /** The bytes of the intervals, omitted or not. */
  function Bytes(intervals: seq<Interval>, omitted: bool): int
    decreases |intervals|
  {
    if intervals == [] then 0
    else
      var last := intervals[|intervals| - 1];
      Bytes(intervals[..|intervals| - 1], omitted) + if last.omitted == omitted then last.bytes else 0
  }

  function Retransmits(intervals: seq<Interval>, omitted: bool): int
    decreases |intervals|
  {
    if intervals == [] then 0
    else
      var last := intervals[|intervals| - 1];
      Retransmits(intervals[..|intervals| - 1], omitted) + if last.omitted == omitted then last.retrans else 0
  }

  function Datagrams(intervals: seq<Interval>): Counts
    decreases |intervals|
  {
    if intervals == [] then NONE
    else Plus(Datagrams(intervals[..|intervals| - 1]), intervals[|intervals| - 1].part)
  }

  function DatagramsOf(intervals: seq<Interval>, omitted: bool): Counts
    decreases |intervals|
  {
    if intervals == [] then NONE
    else
      var last := intervals[|intervals| - 1];
      Plus(DatagramsOf(intervals[..|intervals| - 1], omitted), if last.omitted == omitted then last.part else NONE)
  }

  function Total(t: Test, n: nat): int
    requires n <= |t.streams|
  {
    if n == 0 then 0 else Total(t, n - 1) + Net(t, t.streams[n - 1])
  }

  /** While omitting, all intervals are omitted and hold everything; afterwards those that are not hold everything.  A
      receiver has sent nothing. */
  ghost predicate Balanced(t: Test, s: Stream) {
    && (!t.sender ==> s.sent == 0 && s.sentOmit == 0)
    && if t.omitting then
         && s.sentOmit == 0
         && (forall k :: 0 <= k < |s.intervals| ==> s.intervals[k].omitted)
         && Bytes(s.intervals, true) + Current(t, s) == Net(t, s) && Retransmits(s.intervals, true) == s.retrans
         && Bytes(s.intervals, false) == 0 && Retransmits(s.intervals, false) == 0
       else
         Bytes(s.intervals, false) + Current(t, s) == Net(t, s) && Retransmits(s.intervals, false) == s.retrans
  }

  /** Each interval starts where the one before ended, and their datagrams add up to the last count taken. */
  ghost predicate Chained(t: Test, s: Stream) {
    && (forall k :: 0 < k < |s.intervals| ==> s.intervals[k].start == s.intervals[k - 1].end)
    && (s.intervals != [] ==>
          var last := s.intervals[|s.intervals| - 1];
          last.end == s.endTime && (t.udp ==> Datagrams(s.intervals) == last.whole))
  }

  ghost predicate Inv(t: Test) {
    && t.sent == Total(t, |t.streams|)
    && forall i :: 0 <= i < |t.streams| ==> Balanced(t, t.streams[i]) && Chained(t, t.streams[i])
  }

  lemma {:induction false} TotalOfUpdate(t: Test, t': Test, i: nat, n: nat)
    requires i < |t.streams| == |t'.streams| && n <= |t.streams| && t'.sender == t.sender
    requires forall k :: 0 <= k < |t.streams| && k != i ==> t'.streams[k] == t.streams[k]
    ensures Total(t', n) == Total(t, n) + if i < n then Net(t', t'.streams[i]) - Net(t, t.streams[i]) else 0
  {
    if n > 0 {
      TotalOfUpdate(t, t', i, n - 1);
    }
  }

  lemma {:induction false} TotalOfSame(t: Test, t': Test, n: nat)
    requires |t.streams| == |t'.streams| && n <= |t.streams|
    requires forall k :: 0 <= k < |t.streams| ==> Net(t', t'.streams[k]) == Net(t, t.streams[k])
    ensures Total(t', n) == Total(t, n)
  {
    if n > 0 {
      TotalOfSame(t, t', n - 1);
    }
  }

  lemma {:induction false} TotalOfZero(t: Test, n: nat)
    requires n <= |t.streams| && forall k :: 0 <= k < |t.streams| ==> Net(t, t.streams[k]) == 0
    ensures Total(t, n) == 0
  {
    if n > 0 {
      TotalOfZero(t, n - 1);
    }
  }

  lemma ClosedKeeps(t: Test, s: Stream, now: int, total: int)
    requires Balanced(t, s) && Chained(t, s)
    ensures Balanced(t, Closed(t, s, now, total)) && Chained(t, Closed(t, s, now, total))
    ensures Net(t, Closed(t, s, now, total)) == Net(t, s) && Current(t, Closed(t, s, now, total)) == 0
  {
    ClosedBalanced(t, s, now, total);
    ClosedChained(t, s, now, total);
  }

  lemma ClosedBalanced(t: Test, s: Stream, now: int, total: int)
    requires Balanced(t, s)
    ensures Balanced(t, Closed(t, s, now, total))
  {
    hide Bytes, Retransmits;
    BytesMore(s.intervals, Closing(t, s, now, total), true);
    BytesMore(s.intervals, Closing(t, s, now, total), false);
  }

  lemma BytesMore(intervals: seq<Interval>, last: Interval, omitted: bool)
    ensures Bytes(intervals + [last], omitted) ==
            Bytes(intervals, omitted) + if last.omitted == omitted then last.bytes else 0
    ensures Retransmits(intervals + [last], omitted) ==
            Retransmits(intervals, omitted) + if last.omitted == omitted then last.retrans else 0
  {
    assert (intervals + [last])[..|intervals|] == intervals;
  }

  lemma ClosedChained(t: Test, s: Stream, now: int, total: int)
    requires Chained(t, s)
    ensures Chained(t, Closed(t, s, now, total))
  {
    hide Datagrams;
    DatagramsMore(s.intervals, Closing(t, s, now, total));
  }

  lemma DatagramsMore(intervals: seq<Interval>, last: Interval)
    ensures Datagrams(intervals + [last]) == Plus(Datagrams(intervals), last.part)
    ensures Datagrams([]) == NONE
  {
    assert (intervals + [last])[..|intervals|] == intervals;
  }

  /** One stream changes, and the test counts the bytes that the stream counts. */
  lemma OneStreamKeeps(t: Test, t': Test, i: nat, r: int)
    requires Inv(t) && i < |t.streams| == |t'.streams|
    requires t'.sender == t.sender && t'.omitting == t.omitting && t'.udp == t.udp && t'.sent == t.sent + r
    requires t'.streams == t.streams[i := t'.streams[i]]
    requires Balanced(t, t'.streams[i]) && Chained(t, t'.streams[i])
    requires Net(t, t'.streams[i]) == Net(t, t.streams[i]) + r
    ensures Inv(t')
  {
    hide Total, Balanced, Chained, Net;
    forall k | 0 <= k < |t.streams| ensures Balanced(t', t'.streams[k]) && Chained(t', t'.streams[k]) {
      OnlyFlagsMatter(t, t', t'.streams[k]);
    }
    OnlyFlagsMatter(t, t', t'.streams[i]);
    TotalOfUpdate(t, t', i, |t.streams|);
  }

  lemma StreamEventKeeps(t: Test, e: Event)
    requires Inv(t) && Possible(t, e) && (e.Sent? || e.Received? || e.Counted?)
    ensures Inv(After(t, e))
  {
    hide Bytes, Retransmits, Datagrams, Total;
    var s := t.streams[e.i];
    assert Balanced(t, s) && Chained(t, s);
    OneStreamKeeps(t, After(t, e), e.i, if e.Counted? then 0 else e.r);
  }

  lemma OmitOverKeeps(t: Test, now: int, totals: seq<int>)
    requires Inv(t) && t.omitting && |totals| == |t.streams|
    ensures Inv(After(t, OmitOver(now, totals)))
  {
    hide Bytes, Retransmits, Datagrams, Total;
    var t' := After(t, OmitOver(now, totals));
    forall i | 0 <= i < |t.streams|
      ensures Balanced(t', t'.streams[i]) && Chained(t', t'.streams[i]) && Net(t', t'.streams[i]) == 0
    {
      assert Balanced(t, t.streams[i]) && Chained(t, t.streams[i]);
    }
    TotalOfZero(t', |t.streams|);
  }

  lemma AfterKeeps(t: Test, e: Event)
    requires Inv(t) && Possible(t, e)
    ensures Inv(After(t, e))
  {
    hide Inv, After;
    match e
    case Stats(times, totals) => StatsKeeps(t, times, totals);
    case OmitOver(now, totals) => OmitOverKeeps(t, now, totals);
    case _ => StreamEventKeeps(t, e);
  }

  lemma StatsKeeps(t: Test, times: seq<int>, totals: seq<int>)
    requires Inv(t) && |times| == |totals| == |t.streams|
    ensures Inv(After(t, Stats(times, totals)))
  {
    hide Total, Balanced, Chained, Closed;
    var t' := After(t, Stats(times, totals));
    forall i | 0 <= i < |t.streams|
      ensures Balanced(t', t'.streams[i]) && Chained(t', t'.streams[i])
      ensures Net(t', t'.streams[i]) == Net(t, t.streams[i])
    {
      ClosedKeeps(t, t.streams[i], times[i], totals[i]);
      OnlyFlagsMatter(t, t', t'.streams[i]);
    }
    TotalOfSame(t, t', |t.streams|);
  }

  lemma OnlyFlagsMatter(t: Test, t': Test, s: Stream)
    requires t'.sender == t.sender && t'.omitting == t.omitting && t'.udp == t.udp
    ensures Balanced(t', s) == Balanced(t, s) && Chained(t', s) == Chained(t, s) && Net(t', s) == Net(t, s)
  {
  }

  // ---- whole runs ----

  /** A test as it starts: no bytes, no intervals. */
  function Started(sender: bool, udp: bool, hasRetransmits: bool, omitting: bool, starts: seq<int>): Test {
    Test(sender, udp, hasRetransmits, omitting, 0, 0,
         seq(|starts|, i requires 0 <= i < |starts| => NewStream(starts[i])))
  }

  /** A run from its first state, with the events of it. */
  ghost predicate IsRun(tests: seq<Test>, events: seq<Event>) {
    && |tests| == |events| + 1
    && forall i :: 0 <= i < |events| ==> Possible(tests[i], events[i]) && tests[i + 1] == After(tests[i], events[i])
  }

  /** The events lead from one state to another. */
  ghost predicate Ran(t: Test, events: seq<Event>, t': Test) {
    exists tests: seq<Test> :: IsRun(tests, events) && tests[0] == t && tests[|events|] == t'
  }

  lemma RanNothing(t: Test)
    ensures Ran(t, [], t)
  {
    assert IsRun([t], []);
  }

  lemma RanMore(t: Test, events: seq<Event>, t1: Test, e: Event)
    requires Ran(t, events, t1) && Possible(t1, e)
    ensures Ran(t, events + [e], After(t1, e))
  {
    hide After, Possible;
    var tests :| IsRun(tests, events) && tests[0] == t && tests[|events|] == t1;
    var longer := tests + [After(t1, e)];
    forall i | 0 <= i < |events + [e]|
      ensures Possible(longer[i], (events + [e])[i]) && longer[i + 1] == After(longer[i], (events + [e])[i])
    {
      assert i < |events| ==> longer[i] == tests[i] && longer[i + 1] == tests[i + 1];
    }
    assert IsRun(longer, events + [e]);
  }

  lemma RanOn(t: Test, events: seq<Event>, t1: Test, more: seq<Event>, t2: Test)
    requires Ran(t, events, t1) && Ran(t1, more, t2)
    ensures Ran(t, events + more, t2)
  {
    hide After, Possible;
    var tests :| IsRun(tests, events) && tests[0] == t && tests[|events|] == t1;
    var rest :| IsRun(rest, more) && rest[0] == t1 && rest[|more|] == t2;
    var longer := tests + rest[1..];
    var all := events + more;
    forall i | 0 <= i < |all| ensures Possible(longer[i], all[i]) && longer[i + 1] == After(longer[i], all[i]) {
      if i < |events| {
        assert longer[i] == tests[i] && longer[i + 1] == tests[i + 1];
      } else {
        assert longer[i] == rest[i - |events|] && longer[i + 1] == rest[i - |events| + 1];
      }
    }
    assert IsRun(longer, all);
  }

  lemma {:induction false} RunKeeps(tests: seq<Test>, events: seq<Event>, n: nat)
    requires IsRun(tests, events) && Inv(tests[0]) && n < |tests|
    ensures Inv(tests[n])
  {
    hide After, Inv;
    if n > 0 {
      RunKeeps(tests, events, n - 1);
      AfterKeeps(tests[n - 1], events[n - 1]);
    }
  }

  lemma RanKeeps(t: Test, events: seq<Event>, t': Test)
    requires Ran(t, events, t') && Inv(t)
    ensures Inv(t')
  {
    hide Inv;
    var tests :| IsRun(tests, events) && tests[0] == t && tests[|events|] == t';
    RunKeeps(tests, events, |events|);
  }

  /** Whatever is sent, received and counted, and whenever the intervals are closed and the omitted period ends. */
  lemma AlwaysBalanced(sender: bool, udp: bool, hasRetransmits: bool, omitting: bool, starts: seq<int>,
                       events: seq<Event>, t: Test)
    requires Ran(Started(sender, udp, hasRetransmits, omitting, starts), events, t)
    ensures Inv(t)
  {
    StartedInv(sender, udp, hasRetransmits, omitting, starts);
    RanKeeps(Started(sender, udp, hasRetransmits, omitting, starts), events, t);
  }

  lemma StartedInv(sender: bool, udp: bool, hasRetransmits: bool, omitting: bool, starts: seq<int>)
    ensures Inv(Started(sender, udp, hasRetransmits, omitting, starts))
  {
    TotalOfZero(Started(sender, udp, hasRetransmits, omitting, starts), |starts|);
  }

  /** What a stream reports as transferred, and as sent again, is what its intervals add up to, those that count or, as
      long as the test is omitting, the omitted ones, and the bytes since the last of them. */
  lemma ReportIsSum(t: Test, i: nat)
    requires Inv(t) && i < |t.streams|
    ensures var s := t.streams[i];
            && Net(t, s) == Bytes(s.intervals, t.omitting) + Current(t, s)
            && s.retrans == Retransmits(s.intervals, t.omitting)
  {
    assert Balanced(t, t.streams[i]);
  }

  /** When the intervals have just been closed, there are no more. */
  lemma ReportIsSumOfIntervals(t: Test, times: seq<int>, totals: seq<int>, i: nat)
    requires Inv(t) && |times| == |totals| == |t.streams| && i < |t.streams|
    ensures var s' := After(t, Stats(times, totals)).streams[i];
            && Net(t, s') == Bytes(s'.intervals, t.omitting)
            && s'.retrans == Retransmits(s'.intervals, t.omitting)
  {
    StatsKeeps(t, times, totals);
    ClosedKeeps(t, t.streams[i], times[i], totals[i]);
  }

  lemma {:induction false} DatagramsSplit(intervals: seq<Interval>)
    ensures Datagrams(intervals) == Plus(DatagramsOf(intervals, true), DatagramsOf(intervals, false))
    decreases |intervals|
  {
    hide Plus;
    if intervals == [] {
      PlusRegroups(NONE, NONE, NONE);
    } else {
      var before, part := intervals[..|intervals| - 1], intervals[|intervals| - 1].part;
      DatagramsSplit(before);
      PlusRegroups(DatagramsOf(before, true), DatagramsOf(before, false), part);
    }
  }

  lemma PlusRegroups(a: Counts, b: Counts, c: Counts)
    ensures Plus(Plus(a, b), c) == Plus(Plus(a, c), b) == Plus(a, Plus(b, c))
    ensures Plus(a, NONE) == a && Plus(b, NONE) == b
  {
  }

  /** A stream's own datagrams, less those it leaves out, when its intervals have just been closed: the intervals that
      count hold besides what came between the last omitted interval and the end of the omitted period, and so they are
      the same if and only if nothing did. */
  lemma DatagramsReported(t: Test, times: seq<int>, totals: seq<int>, i: nat)
    requires Inv(t) && |times| == |totals| == |t.streams| && i < |t.streams| && t.udp
    ensures var s' := After(t, Stats(times, totals)).streams[i];
            var counted, others := DatagramsOf(s'.intervals, t.omitting), DatagramsOf(s'.intervals, !t.omitting);
            && counted == Plus(Minus(s'.counts, s'.omitted), Minus(s'.omitted, others))
            && (counted == Minus(s'.counts, s'.omitted) <==> s'.omitted == others)
  {
    hide Datagrams, DatagramsOf;
    ClosedKeeps(t, t.streams[i], times[i], totals[i]);
    DatagramsSplit(Closed(t, t.streams[i], times[i], totals[i]).intervals);
  }

  /** Five datagrams of the omitted period come after its last interval; the first interval that counts holds them. */
  lemma OmittedInInterval()
    ensures var t := After(Started(false, true, false, true, [0]), Counted(0, Counts(5, 0, 0)));
            var t' := After(After(t, OmitOver(1, [0])), Counted(0, Counts(12, 0, 0)));
            var s' := After(t', Stats([2], [0])).streams[0];
            && Minus(s'.counts, s'.omitted) == Counts(7, 0, 0)
            && DatagramsOf(s'.intervals, false) == Counts(12, 0, 0)
  {
    var t := After(Started(false, true, false, true, [0]), Counted(0, Counts(5, 0, 0)));
    var t' := After(After(t, OmitOver(1, [0])), Counted(0, Counts(12, 0, 0)));
    var s' := After(t', Stats([2], [0])).streams[0];
    assert s'.intervals == [Closing(t', t'.streams[0], 2, 0)];
    OneInterval(s'.intervals[0]);
  }

  lemma OneInterval(interval: Interval)
    ensures DatagramsOf([interval], interval.omitted) == interval.part
    ensures Bytes([interval], interval.omitted) == interval.bytes
  {
    assert [interval][..0] == [];
  }

  /** While omitting, the intervals that count hold nothing, so they fall short of what has been transferred by what the
      omitted ones hold. */
  lemma ShortWhileOmitting(t: Test, i: nat)
    requires Inv(t) && i < |t.streams| && t.omitting
    ensures var s := t.streams[i];
            Bytes(s.intervals, false) + Current(t, s) == Net(t, s) <==> Bytes(s.intervals, true) == 0
  {
    assert Balanced(t, t.streams[i]);
  }
}
