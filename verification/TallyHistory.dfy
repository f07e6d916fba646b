/**
 The intervals of a stream told from what has happened to the test, and how long they last: for every run from the
 start, each interval with its times, bytes, datagrams and retransmits.
 */
module TallyHistory {
  import opened UdpLoss
  import opened Tally

  // ---- what has happened so far ----

  function StatsIn(events: seq<Event>): nat {
    if events == [] then 0
    else StatsIn(events[..|events| - 1]) + if events[|events| - 1].Stats? then 1 else 0
  }

  predicate OmitOverIn(events: seq<Event>) {
    exists e <- events :: e.OmitOver?
  }

  /** When the counts of a stream that began at start were last cleared. */
  function StartOf(events: seq<Event>, start: int): int {
    if events == [] then start
    else
      var last := events[|events| - 1];
      if last.OmitOver? then last.now else StartOf(events[..|events| - 1], start)
  }

  /** When its last interval was closed; 0 before. */
  function LastEnd(events: seq<Event>, i: nat): int {
    if events == [] then 0
    else
      var last := events[|events| - 1];
      if last.Stats? && i < |last.times| then last.times[i] else LastEnd(events[..|events| - 1], i)
  }

  /** The bytes since an interval was closed or the counts were cleared. */
  function Since(events: seq<Event>, i: nat): nat {
    if events == [] then 0
    else
      var last, before := events[|events| - 1], events[..|events| - 1];
      if last.Stats? || last.OmitOver? then 0
      else Since(before, i) + if (last.Sent? || last.Received?) && last.i == i then last.r else 0
  }

  /** The blocks since the counts were cleared. */
  function BlocksIn(events: seq<Event>): nat {
    if events == [] then 0
    else
      var last, before := events[|events| - 1], events[..|events| - 1];
      if last.OmitOver? then 0 else BlocksIn(before) + if last.Sent? || last.Received? then 1 else 0
  }

  /** The bytes of a stream since it began, or since the counts were cleared. */
  function BytesIn(events: seq<Event>, i: nat, cleared: bool): nat {
    if events == [] then 0
    else
      var last, before := events[|events| - 1], events[..|events| - 1];
      if last.OmitOver? && cleared then 0
      else BytesIn(before, i, cleared) + if (last.Sent? || last.Received?) && last.i == i then last.r else 0
  }

  /** The datagrams that had been counted when the counts were cleared. */
  function OmittedOf(events: seq<Event>, i: nat): Counts {
    if events == [] then NONE
    else
      var before := events[..|events| - 1];
      if events[|events| - 1].OmitOver? then CountsOf(before, i) else OmittedOf(before, i)
  }

  function CountsOf(events: seq<Event>, i: nat): Counts {
    if events == [] then NONE
    else
      var last := events[|events| - 1];
      if last.Counted? && last.i == i then last.counts else CountsOf(events[..|events| - 1], i)
  }

  /** What the system had counted of retransmits when they were last asked for. */
  function BaseTotal(events: seq<Event>, i: nat): int {
    if events == [] then 0
    else
      var last := events[|events| - 1];
      if (last.Stats? || last.OmitOver?) && i < |last.totals| then last.totals[i]
      else BaseTotal(events[..|events| - 1], i)
  }

  /** The intervals that were closed before the omitted period was over. */
  function OmittedIn(events: seq<Event>, omitting: bool): nat {
    if events == [] then 0
    else
      var before := events[..|events| - 1];
      OmittedIn(before, omitting) +
      if events[|events| - 1].Stats? && omitting && !OmitOverIn(before) then 1 else 0
  }

  // ---- the state of a stream ----

  /** The stream i is what the events have made of it. */
  ghost predicate Follows(first: Test, start: int, events: seq<Event>, t: Test, i: nat) {
    && i < |t.streams| == |first.streams|
    && t.sender == first.sender && t.udp == first.udp && t.hasRetransmits == first.hasRetransmits
    && t.omitting == (first.omitting && !OmitOverIn(events)) && t.blocks == BlocksIn(events)
    && var s := t.streams[i];
       && s.startTime == StartOf(events, start) && s.endTime == LastEnd(events, i)
       && Current(t, s) == Since(events, i)
       && s.counts == CountsOf(events, i) && s.omitted == OmittedOf(events, i)
       && (if t.sender then s.sent else s.received) == BytesIn(events, i, !t.sender)
       && (t.sender ==> s.sent - s.sentOmit == BytesIn(events, i, true))
       && (CountsRetransmits(t) ==> s.prevTotal == BaseTotal(events, i))
       && |s.intervals| == StatsIn(events)
  }

  lemma FollowsOn(first: Test, start: int, events: seq<Event>, t: Test, e: Event, i: nat)
    requires Follows(first, start, events, t, i) && Possible(t, e)
    ensures Follows(first, start, events + [e], After(t, e), i)
  {
    var more := events + [e];
    assert more[..|more| - 1] == events && more[|more| - 1] == e;
    assert OmitOverIn(more) <==> OmitOverIn(events) || e.OmitOver?;
    hide OmitOverIn, Follows;
    OtherOrSame(first, start, events, t, e, i);
  }

  lemma OtherOrSame(first: Test, start: int, events: seq<Event>, t: Test, e: Event, i: nat)
    requires Follows(first, start, events, t, i) && Possible(t, e)
    requires OmitOverIn(events + [e]) <==> OmitOverIn(events) || e.OmitOver?
    requires (events + [e])[..|events|] == events && (events + [e])[|events|] == e
    ensures Follows(first, start, events + [e], After(t, e), i)
  {
    hide OmitOverIn;
  }

  lemma {:induction false} RunFollows(tests: seq<Test>, events: seq<Event>, starts: seq<int>, n: nat, i: nat)
    requires IsRun(tests, events) && n <= |events| && i < |starts|
    requires tests[0] == Started(tests[0].sender, tests[0].udp, tests[0].hasRetransmits, tests[0].omitting, starts)
    ensures Follows(tests[0], starts[i], events[..n], tests[n], i)
  {
    hide After, Possible;
    if n > 0 {
      hide Follows;
      RunFollows(tests, events, starts, n - 1, i);
      FollowsOn(tests[0], starts[i], events[..n - 1], tests[n - 1], events[n - 1], i);
      assert events[..n - 1] + [events[n - 1]] == events[..n];
    }
  }

  // ---- each interval ----

  /** The interval that the callback closes behind these events. */
  ghost predicate IsInterval(x: Interval, first: Test, start: int, events: seq<Event>, now: int, total: int, i: nat) {
    && x.start == (if StatsIn(events) == 0 then StartOf(events, start) else LastEnd(events, i))
    && x.end == now
    && x.bytes == Since(events, i)
    && x.omitted == (first.omitting && !OmitOverIn(events))
    && x.whole == (if first.udp then CountsOf(events, i) else NONE)
    && x.retrans == (if CountsRetransmits(first) then total - BaseTotal(events, i) else 0)
  }

  /** For every callback of a run: the interval that it closed, and that it is still there at the end. */
  lemma {:induction false} IntervalIs(tests: seq<Test>, events: seq<Event>, starts: seq<int>, n: nat, p: nat, i: nat)
    requires IsRun(tests, events) && p < n <= |events| && i < |starts|
    requires tests[0] == Started(tests[0].sender, tests[0].udp, tests[0].hasRetransmits, tests[0].omitting, starts)
    requires events[p].Stats?
    ensures i < |tests[n].streams| && i < |events[p].times| == |events[p].totals|
    ensures var intervals, k := tests[n].streams[i].intervals, StatsIn(events[..p]);
            && |intervals| == StatsIn(events[..n]) && k < |intervals|
            && IsInterval(intervals[k], tests[0], starts[i], events[..p], events[p].times[i], events[p].totals[i], i)
    decreases n
  {
    hide After, Possible, IsInterval;
    RunFollows(tests, events, starts, n, i);
    RunFollows(tests, events, starts, n - 1, i);
    if n - 1 == p {
      CloseIs(tests[0], starts[i], events[..p], tests[p], events[p], i);
    } else {
      IntervalIs(tests, events, starts, n - 1, p, i);
      IntervalsStay(tests[n - 1], events[n - 1], i);
    }
  }

  lemma IntervalsStay(t: Test, e: Event, i: nat)
    requires Possible(t, e) && i < |t.streams|
    ensures |After(t, e).streams| == |t.streams| && t.streams[i].intervals <= After(t, e).streams[i].intervals
  {
  }

  lemma CloseIs(first: Test, start: int, events: seq<Event>, t: Test, e: Event, i: nat)
    requires Follows(first, start, events, t, i) && Possible(t, e) && e.Stats?
    ensures i < |After(t, e).streams| && i < |e.times| == |e.totals|
    ensures var intervals := After(t, e).streams[i].intervals;
            && |intervals| == StatsIn(events) + 1
            && IsInterval(intervals[StatsIn(events)], first, start, events, e.times[i], e.totals[i], i)
  {
    hide OmitOverIn;
  }

  // ---- how long they last ----

  /** What the intervals last, those that count or the omitted ones. */
  function Lasting(intervals: seq<Interval>, omitted: bool): int
    decreases |intervals|
  {
    if intervals == [] then 0
    else
      var last := intervals[|intervals| - 1];
      Lasting(intervals[..|intervals| - 1], omitted) + if last.omitted == omitted then last.end - last.start else 0
  }

  /** The omitted ones come first. */
  ghost predicate Dated(t: Test, s: Stream, n: nat) {
    && n <= |s.intervals| && (t.omitting ==> n == |s.intervals|)
    && (forall k :: 0 <= k < |s.intervals| ==> (s.intervals[k].omitted <==> k < n))
    && (n == 0 && s.intervals != [] ==> s.intervals[0].start == s.startTime)
  }

  lemma DatedOn(t: Test, e: Event, i: nat, n: nat)
    requires Possible(t, e) && i < |t.streams| && Dated(t, t.streams[i], n)
    ensures i < |After(t, e).streams|
    ensures Dated(After(t, e), After(t, e).streams[i], n + if e.Stats? && t.omitting then 1 else 0)
  {
  }

  lemma {:induction false} RunDated(tests: seq<Test>, events: seq<Event>, starts: seq<int>, n: nat, i: nat)
    requires IsRun(tests, events) && n <= |events| && i < |starts|
    requires tests[0] == Started(tests[0].sender, tests[0].udp, tests[0].hasRetransmits, tests[0].omitting, starts)
    ensures i < |tests[n].streams|
    ensures Dated(tests[n], tests[n].streams[i], OmittedIn(events[..n], tests[0].omitting))
  {
    hide After, Possible, OmitOverIn, Dated;
    if n == 0 {
      assert Dated(tests[0], NewStream(starts[i]), 0) by {
        StartDated(tests[0], starts[i]);
      }
    } else {
      RunDated(tests, events, starts, n - 1, i);
      RunFollows(tests, events, starts, n - 1, i);
      DatedOn(tests[n - 1], events[n - 1], i, OmittedIn(events[..n - 1], tests[0].omitting));
      assert events[..n][..n - 1] == events[..n - 1];
    }
  }

  lemma StartDated(t: Test, start: int)
    ensures Dated(t, NewStream(start), 0)
  {
  }

  /** From the first interval of a kind to the last: each begins where the one before it ended. */
  lemma {:induction false} LastingFrom(intervals: seq<Interval>, n: nat)
    requires n < |intervals| && forall k :: 0 <= k < |intervals| ==> (intervals[k].omitted <==> k < n)
    requires forall k :: 0 < k < |intervals| ==> intervals[k].start == intervals[k - 1].end
    ensures Lasting(intervals, false) == intervals[|intervals| - 1].end - intervals[n].start
    decreases |intervals|
  {
    var before := intervals[..|intervals| - 1];
    if n == |before| {
      NoneLasting(before);
    } else {
      LastingFrom(before, n);
    }
  }

  lemma {:induction false} NoneLasting(intervals: seq<Interval>)
    requires forall k :: 0 <= k < |intervals| ==> intervals[k].omitted
    ensures Lasting(intervals, false) == 0
    decreases |intervals|
  {
    if intervals != [] {
      NoneLasting(intervals[..|intervals| - 1]);
    }
  }

  /** The report divides by the time from the start of the stream, or the end of its omitted period, to its last
      interval.  The intervals that count last as long if and only if the omitted period, if there were intervals in it,
      ended with the last of them; else they last longer by what was between. */
  lemma ReportedTime(tests: seq<Test>, events: seq<Event>, starts: seq<int>, i: nat)
    requires IsRun(tests, events) && i < |starts|
    requires tests[0] == Started(tests[0].sender, tests[0].udp, tests[0].hasRetransmits, tests[0].omitting, starts)
    requires OmittedIn(events, tests[0].omitting) < StatsIn(events)
    ensures i < |tests[|events|].streams|
    ensures var s, n := tests[|events|].streams[i], OmittedIn(events, tests[0].omitting);
            var between := if n == 0 || |s.intervals| < n then 0 else s.startTime - s.intervals[n - 1].end;
            && Lasting(s.intervals, false) == s.endTime - s.startTime + between
            && (Lasting(s.intervals, false) == s.endTime - s.startTime <==> between == 0)
  {
    hide After, Possible, OmitOverIn, Lasting, Inv;
    var m := |events|;
    assert events[..m] == events;
    RunFollows(tests, events, starts, m, i);
    RunDated(tests, events, starts, m, i);
    StartedInv(tests[0].sender, tests[0].udp, tests[0].hasRetransmits, tests[0].omitting, starts);
    RunKeeps(tests, events, m);
    var s := tests[m].streams[i];
    ChainedIn(tests[m], i);
    LastingFrom(s.intervals, OmittedIn(events, tests[0].omitting));
  }

  lemma ChainedIn(t: Test, i: nat)
    requires Inv(t) && i < |t.streams|
    ensures Chained(t, t.streams[i])
  {
  }

  // ---- a clock that does not run backwards ----

  /** What the clock said last. */
  function Clock(events: seq<Event>, start: int, i: nat): int {
    if events == [] then start
    else
      var last := events[|events| - 1];
      if last.Stats? && i < |last.times| then last.times[i]
      else if last.OmitOver? then last.now
      else Clock(events[..|events| - 1], start, i)
  }

  ghost predicate Forward(events: seq<Event>, start: int, i: nat) {
    forall p: nat :: p < |events| ==> Clock(events[..p], start, i) <= Clock(events[..p + 1], start, i)
  }

  lemma {:induction false} ClockIsLast(events: seq<Event>, start: int, i: nat)
    requires Forward(events, start, i)
    requires forall e <- events :: e.Stats? ==> i < |e.times|
    ensures StartOf(events, start) <= Clock(events, start, i)
    ensures 0 < StatsIn(events) ==> LastEnd(events, i) <= Clock(events, start, i)
    decreases |events|
  {
    if events != [] {
      var n := |events| - 1;
      assert events[..n + 1] == events;
      assert forall p: nat :: p <= n ==> events[..n][..p] == events[..p];
      assert events[n] in events;
      ClockIsLast(events[..n], start, i);
      assert Clock(events[..n], start, i) <= Clock(events[..n + 1], start, i);
    }
  }

  /** No interval ends before it starts. */
  lemma NeverNegative(tests: seq<Test>, events: seq<Event>, starts: seq<int>, p: nat, i: nat)
    requires IsRun(tests, events) && p < |events| && i < |starts| && Forward(events, starts[i], i)
    requires tests[0] == Started(tests[0].sender, tests[0].udp, tests[0].hasRetransmits, tests[0].omitting, starts)
    requires events[p].Stats?
    ensures i < |tests[|events|].streams|
    ensures var intervals, k := tests[|events|].streams[i].intervals, StatsIn(events[..p]);
            k < |intervals| && intervals[k].start <= intervals[k].end
  {
    hide After, OmitOverIn, Clock, Forward;
    IntervalIs(tests, events, starts, |events|, p, i);
    forall q: nat | q < |events| && events[q].Stats? ensures i < |events[q].times| {
      RunFollows(tests, events, starts, q, i);
    }
    UpTo(events, starts[i], p, i);
    ClockIsLast(events[..p], starts[i], i);
    ClockAt(events, starts[i], p, i);
  }

  lemma UpTo(events: seq<Event>, start: int, p: nat, i: nat)
    requires Forward(events, start, i) && p <= |events|
    ensures Forward(events[..p], start, i)
  {
    assert forall q: nat :: q <= p ==> events[..p][..q] == events[..q];
  }

  lemma ClockAt(events: seq<Event>, start: int, p: nat, i: nat)
    requires Forward(events, start, i) && p < |events| && events[p].Stats? && i < |events[p].times|
    ensures Clock(events[..p], start, i) <= events[p].times[i]
  {
    assert events[..p + 1][..p] == events[..p];
  }

  /** The omitted period ends a second behind its only interval; the next one lasts two, and the report says one. */
  lemma LongerThanReported() returns (t0: Test, t1: Test, t2: Test, t3: Test)
    ensures t0 == Started(true, false, false, true, [0])
    ensures |t0.streams| == 1 && t1 == After(t0, Stats([1], [0]))
    ensures |t1.streams| == 1 && t1.omitting && t2 == After(t1, OmitOver(2, [0]))
    ensures |t2.streams| == 1 && t3 == After(t2, Stats([3], [0])) && |t3.streams| == 1
    ensures var s := t3.streams[0];
            && s.endTime - s.startTime == 1 && |s.intervals| == 2
            && s.intervals[1].end - s.intervals[1].start == 2 && !s.intervals[1].omitted
  {
    t0 := Started(true, false, false, true, [0]);
    t1 := After(t0, Stats([1], [0]));
    t2 := After(t1, OmitOver(2, [0]));
    t3 := After(t2, Stats([3], [0]));
    hide Started;
    OneCloses(t0, 1);
    OneCleared(t1);
    OneCloses(t2, 3);
  }

  lemma OneCloses(t: Test, now: int)
    requires |t.streams| == 1
    ensures var t' := After(t, Stats([now], [0]));
            && |t'.streams| == 1 && t'.omitting == t.omitting
            && t'.streams[0].intervals == t.streams[0].intervals + [Closing(t, t.streams[0], now, 0)]
            && t'.streams[0].startTime == t.streams[0].startTime && t'.streams[0].endTime == now
  {
  }

  lemma OneCleared(t: Test)
    requires |t.streams| == 1 && t.omitting
    ensures var t' := After(t, OmitOver(2, [0]));
            && |t'.streams| == 1 && !t'.omitting && t'.streams[0].intervals == t.streams[0].intervals
            && t'.streams[0].startTime == 2 && t'.streams[0].endTime == t.streams[0].endTime
  {
  }
}
