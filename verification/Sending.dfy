/**
 The sending loop (iperf_api.c, iperf_send, iperf_check_throttle and send_timer_proc): how far a call can pass the limit
 of the test, and how far a stream can get ahead of the rate asked for.  How much a write takes, which sockets are ready
 and what the clock says are left open.
 */
module Sending {
  import opened Tally

  // Microseconds in a second.
  const MEGA := 1_000_000

  const NET_SOFTERROR := -1
  const NET_HARDERROR := -2

  // ---- rates ----

  /** After so many microseconds, bytes are what the rate (in bits per second) allows, but for an excess of bytes. */
  ghost predicate Within(bytes: int, rate: int, elapsed: int, excess: int) {
    8 * bytes * MEGA <= rate * elapsed + 8 * excess * MEGA
  }

  /** The double is cut to an integer of 64 bits, which it fits. */
  function BitsPerSecond(bytes: nat, elapsed: int): int
    requires 0 < elapsed
  {
    8 * bytes * MEGA / elapsed
  }

  lemma WithinLater(bytes: int, rate: nat, elapsed: int, later: int, excess: int)
    requires Within(bytes, rate, elapsed, excess) && elapsed <= later
    ensures Within(bytes, rate, later, excess)
  {
    assert rate * elapsed <= rate * later;
  }

  lemma WithinMore(bytes: int, r: nat, rate: nat, elapsed: int, excess: int, more: int)
    requires Within(bytes, rate, elapsed, excess) && excess + r <= more
    ensures Within(bytes + r, rate, elapsed, more)
  {
  }

  lemma ProductGrows(x: int, y: int, factor: nat)
    requires x <= y
    ensures x * factor <= y * factor
  {
  }

  lemma QuotientBelow(n: nat, divisor: int, bound: nat)
    requires 0 < divisor
    ensures n / divisor < bound <==> n < divisor * bound
  {
    var q := n / divisor;
    assert n == q * divisor + n % divisor;
    if q < bound {
      ProductGrows(q + 1, bound, divisor);
      assert (q + 1) * divisor == q * divisor + divisor;
    } else {
      ProductGrows(bound, q, divisor);
    }
  }

  /** The test of the throttle is exact. */
  lemma SlowMeansWithin(bytes: nat, rate: nat, elapsed: int)
    requires 0 < elapsed
    ensures BitsPerSecond(bytes, elapsed) < rate <==> 8 * bytes * MEGA < rate * elapsed
  {
    QuotientBelow(8 * bytes * MEGA, elapsed, rate);
  }

  // ---- what is sent ----

  /** What the first n streams send in a pass, those that may, with what each write returns. */
  function Sends(writes: seq<int>, may: seq<bool>, n: nat): seq<Event>
    requires n <= |writes| == |may|
  {
    if n == 0 then []
    else Sends(writes, may, n - 1) + if may[n - 1] && 0 <= writes[n - 1] then [Sent(n - 1, writes[n - 1])] else []
  }

  /** One block from each of them, in their order, and nothing else. */
  lemma {:induction false} SendsExactly(writes: seq<int>, may: seq<bool>, n: nat)
    requires n <= |writes| == |may|
    ensures forall k: nat :: k < |writes| && 0 <= writes[k] ==>
              (Sent(k, writes[k]) in Sends(writes, may, n) <==> k < n && may[k])
    ensures forall e <- Sends(writes, may, n) :: e.Sent? && e.i < n && e.r == writes[e.i]
  {
    if n > 0 {
      SendsExactly(writes, may, n - 1);
    }
  }

  ghost predicate InOrder(events: seq<Event>) {
    forall a, b :: 0 <= a < b < |events| ==> events[a].Sent? && events[b].Sent? && events[a].i < events[b].i
  }

  lemma {:induction false} SendsInOrder(writes: seq<int>, may: seq<bool>, n: nat)
    requires n <= |writes| == |may|
    ensures InOrder(Sends(writes, may, n))
  {
    if n > 0 {
      SendsInOrder(writes, may, n - 1);
      SendsExactly(writes, may, n - 1);
      OneBehind(Sends(writes, may, n - 1), n - 1, writes[n - 1]);
      assert Sends(writes, may, n - 1) + [] == Sends(writes, may, n - 1);
    }
  }

  lemma OneBehind(events: seq<Event>, i: nat, w: int)
    requires InOrder(events) && forall e <- events :: e.Sent? && e.i < i
    ensures 0 <= w ==> InOrder(events + [Sent(i, w)])
  {
    assert forall a :: 0 <= a < |events| ==> events[a] in events;
  }

  /** What a write of a block can return: an error, or some of the block. */
  predicate IsWrite(r: int, blksize: nat) {
    r == NET_SOFTERROR || r == NET_HARDERROR || 0 <= r <= blksize
  }

  /** For every pass what the write on every stream would return. */
  ghost predicate AreWritesOf(writes: seq<seq<int>>, rounds: nat, n: nat, blksize: nat) {
    |writes| == rounds && forall w <- writes :: |w| == n && forall r <- w :: IsWrite(r, blksize)
  }

  function BytesOf(events: seq<Event>): nat {
    if events == [] then 0
    else BytesOf(events[..|events| - 1]) + if events[|events| - 1].Sent? then events[|events| - 1].r else 0
  }

  lemma BytesOfMore(events: seq<Event>, e: Event)
    requires e.Sent?
    ensures BytesOf(events + [e]) == BytesOf(events) + e.r
  {
    assert (events + [e])[..|events|] == events;
  }

  lemma {:induction false} BytesOfBoth(events: seq<Event>, more: seq<Event>)
    ensures BytesOf(events + more) == BytesOf(events) + BytesOf(more)
    decreases |more|
  {
    if more == [] {
      assert events + more == events;
    } else {
      var last := |more| - 1;
      assert (events + more)[..|events| + last] == events + more[..last];
      BytesOfBoth(events, more[..last]);
    }
  }

  /** The passes of a call, the first j of them, each up to where it stopped. */
  function Passes(writes: seq<seq<int>>, may: seq<bool>, reached: seq<nat>, j: nat): seq<Event>
    requires j <= |reached| <= |writes|
    requires forall k :: 0 <= k < |reached| ==> reached[k] <= |writes[k]| == |may|
  {
    if j == 0 then [] else Passes(writes, may, reached, j - 1) + Sends(writes[j - 1], may, reached[j - 1])
  }

  lemma {:induction false} PassesMore(writes: seq<seq<int>>, may: seq<bool>, reached: seq<nat>, more: nat, j: nat)
    requires j <= |reached| < |writes| && more <= |writes[|reached|]| == |may|
    requires forall k :: 0 <= k < |reached| ==> reached[k] <= |writes[k]| == |may|
    ensures Passes(writes, may, reached + [more], j) == Passes(writes, may, reached, j)
  {
    hide Sends;
    if j > 0 {
      PassesMore(writes, may, reached, more, j - 1);
    }
  }

  /** What an observer sees of the streams, and when. */
  datatype Moment = Moment(now: int, streams: seq<Stream>)

  datatype Snapshot = Snapshot(tally: Test, green: seq<bool>, now: int)

  /** What the loop of a sending side does while the test is running, and how much later it is when it reads the clock.
      For a call of iperf_send: what the writes return, pass by pass and stream by stream, and which sockets are
      ready. */
  datatype Action =
    | SendAll(writes: seq<seq<int>>, ready: seq<bool>, later: nat)
    | Timer(i: nat, later: nat)
    | Statistics(e: Event)
    | ReadClock(later: nat)

  class Sender {
    const rate: nat
    const burst: nat
    const blksize: nat
    const multisend: nat
    const bytesLimit: nat
    const blocksLimit: nat
    const noFqPacing: bool
    const starts: seq<int>       // start_time_fixed of each stream
    var tally: Test
    var green: seq<bool>
    var now: int
    var done: bool
    ghost var moments: seq<Moment>

    ghost predicate Valid()
      reads this
    {
      && tally.sender && |green| == |starts| == |tally.streams|
      && forall i :: 0 <= i < |starts| ==> starts[i] < now
    }

    /** The streams are held back by the rate: by default they are not, but left to the kernel. */
    ghost predicate Held()
      reads this
    {
      noFqPacing && 0 < rate && !done
    }

    /** A stream is ahead of the rate by no more than the slack. */
    ghost predicate AheadBy(i: nat, slack: int)
      reads this
      requires Valid() && i < |starts|
    {
      Within(tally.streams[i].sent, rate, now - starts[i], slack)
    }

    /** So is every stream that may send. */
    ghost predicate GreenWithin(slack: int)
      reads this
      requires Valid()
    {
      forall i :: 0 <= i < |starts| && green[i] ==> AheadBy(i, slack)
    }

    /** One block, or one burst of blocks. */
    function Excess(): nat {
      if burst == 0 then blksize else burst * blksize
    }

    ghost predicate Bounded(m: Moment) {
      forall i :: 0 <= i < |starts| && i < |m.streams| ==> Within(m.streams[i].sent, rate, m.now - starts[i], Excess())
    }

    /** At every moment so far no stream has been ahead of the rate by more than the excess. */
    ghost predicate Paced()
      reads this
    {
      && Valid() && Bounded(Moment(now, tally.streams))
      && forall k :: 0 <= k < |moments| ==> Bounded(moments[k])
    }

    /** The streams have started, and iperf_create_send_timers has let them all send. */
    constructor (rate: nat, burst: nat, blksize: nat, multisend: nat, bytesLimit: nat, blocksLimit: nat,
                 noFqPacing: bool, starts: seq<int>, now: int, udp: bool, hasRetransmits: bool, omitting: bool)
      requires forall i :: 0 <= i < |starts| ==> starts[i] < now
      ensures Valid() && Paced() && GreenWithin(0) && Inv(tally)
      ensures tally == Started(true, udp, hasRetransmits, omitting, starts) && moments == [] && !done
      ensures this.rate == rate && this.burst == burst && this.blksize == blksize && this.multisend == multisend
      ensures this.bytesLimit == bytesLimit && this.blocksLimit == blocksLimit && this.noFqPacing == noFqPacing
      ensures this.starts == starts && this.now == now && green == seq(|starts|, _ => true)
    {
      this.rate, this.burst, this.blksize, this.multisend := rate, burst, blksize, multisend;
      this.bytesLimit, this.blocksLimit, this.noFqPacing := bytesLimit, blocksLimit, noFqPacing;
      this.starts, this.now, done := starts, now, false;
      tally := Started(true, udp, hasRetransmits, omitting, starts);
      green := seq(|starts|, _ => true);
      moments := [];
      new;
      StartedInv(true, udp, hasRetransmits, omitting, starts);
      forall i | 0 <= i < |starts|
        ensures Within(0, rate, now - starts[i], 0) && Within(0, rate, now - starts[i], Excess())
      {
        assert 0 <= rate * (now - starts[i]);
        WithinMore(0, 0, rate, now - starts[i], 0, Excess());
      }
    }

    /** gettimeofday: the clock does not run backwards. */
    method GetTimeOfDay(later: nat, ghost slack: int)
      requires Valid()
      modifies this`now, this`moments
      ensures Valid() && now == old(now) + later
      ensures moments == old(moments) + [Moment(now, tally.streams)]
      ensures old(Paced()) ==> Paced()
      ensures old(GreenWithin(slack)) ==> GreenWithin(slack)
    {
      var t := now + later;
      forall i | 0 <= i < |starts| && AheadBy(i, Excess())
        ensures Within(tally.streams[i].sent, rate, t - starts[i], Excess())
      {
        WithinLater(tally.streams[i].sent, rate, now - starts[i], t - starts[i], Excess());
      }
      forall i | 0 <= i < |starts| && AheadBy(i, slack)
        ensures Within(tally.streams[i].sent, rate, t - starts[i], slack)
      {
        WithinLater(tally.streams[i].sent, rate, now - starts[i], t - starts[i], slack);
      }
      now := t;
      moments := moments + [Moment(now, tally.streams)];
    }

    /** sp->snd, with what the write returns */
    method Snd(i: nat, write: int, ghost slack: int) returns (r: int)
      requires Valid() && i < |starts| && IsWrite(write, blksize)
      modifies this`tally, this`moments
      ensures Valid() && r == write
      ensures moments == if r < 0 then old(moments) else old(moments) + [Moment(now, tally.streams)]
      ensures if r < 0 then tally == old(tally) else tally == After(old(tally), Sent(i, r))
      ensures old(AheadBy(i, slack) && Paced()) && slack + blksize <= Excess() ==>
              Paced() && AheadBy(i, slack + blksize)
    {
      hide Within;
      r := write;
      ghost var more: nat := if r < 0 then 0 else r;
      if AheadBy(i, slack) && slack + blksize <= Excess() {
        WithinMore(tally.streams[i].sent, more, rate, now - starts[i], slack, slack + blksize);
        WithinMore(tally.streams[i].sent, more, rate, now - starts[i], slack, Excess());
      }
      if r >= 0 {
        var s := tally.streams[i];
        s := s.(sent := s.sent + r, sentNow := s.sentNow + r);
        tally := tally.(streams := tally.streams[i := s], sent := tally.sent + r, blocks := tally.blocks + 1);
        moments := moments + [Moment(now, tally.streams)];
      }
    }

    /** A stream is behind its rate. */
    predicate Slow(t: Test, i: nat, now: int)
      requires i < |t.streams| == |starts|
    {
      8 * t.streams[i].sent * MEGA < rate * (now - starts[i])
    }

    /** iperf_check_throttle */
    method CheckThrottle(i: nat)
      requires Valid() && i < |starts|
      modifies this`green
      ensures Valid()
      ensures green == if done then old(green) else old(green)[i := Slow(tally, i, now)]
      ensures !done && green[i] ==> AheadBy(i, 0)
    {
      if done {
        return;
      }
      SlowMeansWithin(tally.streams[i].sent, rate, now - starts[i]);
      green := green[i := BitsPerSecond(tally.streams[i].sent, now - starts[i]) < rate];
    }

    // ---- one round over the streams ----

    /** Streams up to p have had their turn; in a burst they may have used a block more than the slack. */
    ghost predicate RoundWithin(p: nat, slack: int)
      reads this
      requires Valid()
    {
      forall i :: 0 <= i < |starts| && green[i] ==> AheadBy(i, if i < p && burst != 0 then slack + blksize else slack)
    }

    /** The slack that a round in the course of a call leaves room for. */
    predicate Room(slack: int) {
      slack + blksize <= Excess() && (burst == 0 ==> slack == 0)
    }

    /** The turn of one stream: a send, and without bursts the throttle. */
    method SendOne(i: nat, write: int, ghost slack: int) returns (r: int)
      requires Valid() && i < |starts| && IsWrite(write, blksize)
      modifies this`tally, this`green, this`moments
      ensures Valid() && r == write
      ensures old(moments) <= moments
      ensures if r < 0 then tally == old(tally) else tally == After(old(tally), Sent(i, r))
      ensures green == if r < 0 || rate == 0 || burst != 0 || done then old(green)
                       else old(green)[i := Slow(tally, i, now)]
      ensures old(Held() && green[i] && Paced() && RoundWithin(i, slack)) && Room(slack) ==>
                Paced() && (if r < 0 then RoundWithin(i, slack) else RoundWithin(i + 1, slack))
    {
      hide Within, Bounded;
      r := Snd(i, write, slack);
      if r >= 0 && rate != 0 && burst == 0 {
        CheckThrottle(i);
      }
    }

    /** The turn of a stream, if it may send and its socket is ready. */
    method Turn(i: nat, write: int, ready: bool, ghost slack: int)
      returns (n: int, sent: bool, ghost events: seq<Event>)
      requires Valid() && i < |starts| && IsWrite(write, blksize)
      modifies this`tally, this`green, this`moments
      ensures Valid() && n == if !noFqPacing || (old(green[i]) && ready) then write else 0
      ensures sent <==> (!noFqPacing || (old(green[i]) && ready)) && 0 <= write
      ensures old(moments) <= moments
      ensures Ran(old(tally), events, tally)
      ensures tally.sent == old(tally).sent + BytesOf(events) && tally.blocks == old(tally).blocks + |events|
      ensures events == if sent then [Sent(i, n)] else []
      ensures green == if !sent || rate == 0 || burst != 0 || done then old(green)
                       else old(green)[i := Slow(tally, i, now)]
      ensures forall k :: 0 <= k < |starts| && k != i ==> tally.streams[k] == old(tally).streams[k]
      ensures old(Held() && Paced() && RoundWithin(i, slack)) && Room(slack) ==>
                Held() && Paced() && RoundWithin(i + 1, slack)
    {
      hide Within, Bounded, Paced, Ran;
      n, sent, events := 0, false, [];
      RanNothing(tally);
      SkipTurn(i, slack);
      if !noFqPacing || (green[i] && ready) {
        n := SendOne(i, write, slack);
        SkipTurn(i, slack);
        if n >= 0 {
          RanMore(old(tally), [], old(tally), Sent(i, n));
          BytesOfMore([], Sent(i, n));
          sent, events := true, [Sent(i, n)];
          assert [] + [Sent(i, n)] == events;
        }
      }
    }

    predicate LimitReached(sent: nat, blocks: nat) {
      (bytesLimit != 0 && sent >= bytesLimit) || (blocksLimit != 0 && blocks >= blocksLimit)
    }

    /** Who sends in a call: with pacing those whose light is green and whose socket is ready, else everybody. */
    ghost function May(green: seq<bool>, ready: seq<bool>): (may: seq<bool>)
      requires |green| == |ready|
      ensures |may| == |green|
      ensures forall i :: 0 <= i < |may| ==> (may[i] <==> !noFqPacing || (green[i] && ready[i]))
    {
      seq(|green|, i requires 0 <= i < |green| => !noFqPacing || (green[i] && ready[i]))
    }

    /** A pass goes over the first n streams: it stops at an error, and at a limit if more passes are to come, and for
        no other reason. */
    ghost predicate StopsAt(sent: nat, blocks: nat, writes: seq<int>, may: seq<bool>, more: bool, n: nat)
      requires |writes| == |may|
    {
      && n <= |may|
      && (forall k: nat :: k + 1 < n && may[k] ==>
            && 0 <= writes[k]
            && (more ==> !LimitReached(sent + BytesOf(Sends(writes, may, k + 1)),
                                       blocks + |Sends(writes, may, k + 1)|)))
      && (n < |may| ==>
            && 0 < n && may[n - 1]
            && (writes[n - 1] < 0
                || (more && LimitReached(sent + BytesOf(Sends(writes, may, n)), blocks + |Sends(writes, may, n)|))))
    }

    /** The last stream that a pass came to has failed for good. */
    ghost predicate Fails(writes: seq<int>, may: seq<bool>, n: nat)
      requires n <= |writes| == |may|
    {
      0 < n && may[n - 1] && writes[n - 1] == NET_HARDERROR
    }

    /** A pass sets the throttle of those who have sent, if there are no bursts. */
    ghost predicate Throttled(before: seq<bool>, after: seq<bool>, t: Test, writes: seq<int>, may: seq<bool>, n: nat)
      reads this`done, this`now
      requires n <= |writes| == |may| == |before| == |after| == |t.streams| == |starts|
    {
      forall k :: 0 <= k < |after| ==>
        after[k] == if rate != 0 && burst == 0 && !done && k < n && may[k] && 0 <= writes[k] then Slow(t, k, now)
                    else before[k]
    }

    /** The loop over the streams; more: other passes are to come. */
    method Pass(more: bool, writes: seq<int>, ready: seq<bool>, ghost slack: int)
      returns (r: int, active: bool, ghost events: seq<Event>, ghost reached: nat)
      requires Valid() && |writes| == |ready| == |starts| && forall w <- writes :: IsWrite(w, blksize)
      modifies this`tally, this`green, this`moments
      ensures Valid() && reached <= |starts|
      ensures StopsAt(old(tally).sent, old(tally).blocks, writes, May(old(green), ready), more, reached)
      ensures r == if Fails(writes, May(old(green), ready), reached) then NET_HARDERROR else 0
      ensures events == Sends(writes, May(old(green), ready), reached) && (active <==> events != [])
      ensures Throttled(old(green), green, tally, writes, May(old(green), ready), reached)
      ensures old(moments) <= moments
      ensures Ran(old(tally), events, tally)
      ensures tally.sent == old(tally).sent + BytesOf(events) && tally.blocks == old(tally).blocks + |events|
      ensures old(Held() && Paced() && RoundWithin(0, slack)) && Room(slack) ==>
                Paced() && RoundWithin(reached, slack)
    {
      hide Within, Bounded, Paced, Ran, RoundWithin, Room, BytesOf, Sends, StopsAt, Throttled, GoesOn, LimitReached,
           Fails, Reached;
      ghost var paced := Held() && Paced() && RoundWithin(0, slack) && Room(slack);
      ghost var first, may := tally, May(green, ready);
      r, active, reached := 0, false, 0;
      NoneReached(tally, green, writes, may);
      if |starts| == 0 {
        StopsAtEnd(first.sent, first.blocks, writes, may, more);
      }
      var i := 0;
      while i < |starts|
        invariant Valid() && 0 <= i == reached <= |starts| && old(moments) <= moments && r == 0
        invariant Reached(first, old(green), writes, may, i, tally, green) && (active <==> Sends(writes, may, i) != [])
        invariant forall k: nat :: k < i && may[k] ==> GoesOn(first.sent, first.blocks, writes, may, more, k)
        invariant i == |starts| ==> StopsAt(first.sent, first.blocks, writes, may, more, i) && !Fails(writes, may, i)
        invariant paced ==> Held() && Paced() && RoundWithin(i, slack)
      {
        assert writes[i] in writes;
        var n, sent := Visit(i, writes, ready, first, old(green), slack);
        StopsOrGoesOn(first.sent, first.blocks, writes, may, more, i);
        i, reached := i + 1, reached + 1;
        if n < 0 {
          if n == NET_HARDERROR {
            r := n;
          }
          break;
        }
        if sent {
          active := true;
          if more && bytesLimit != 0 && tally.sent >= bytesLimit {
            break;
          }
          if more && blocksLimit != 0 && tally.blocks >= blocksLimit {
            break;
          }
        }
      }
      events := Sends(writes, may, reached);
      ReachedIs(first, old(green), writes, may, reached, tally, green);
    }

    /** What a pass has done when it comes to the stream n. */
    ghost predicate Reached(first: Test, lights: seq<bool>, writes: seq<int>, may: seq<bool>, n: nat, t: Test,
                            green: seq<bool>)
      reads this`done, this`now
      requires n <= |writes| == |may| == |lights| == |green| == |t.streams| == |starts|
    {
      var events := Sends(writes, may, n);
      && Ran(first, events, t) && t.sent == first.sent + BytesOf(events) && t.blocks == first.blocks + |events|
      && (forall k :: n <= k < |green| ==> green[k] == lights[k])
      && Throttled(lights, green, t, writes, may, n)
    }

    lemma NoneReached(t: Test, green: seq<bool>, writes: seq<int>, may: seq<bool>)
      requires |writes| == |may| == |green| == |t.streams| == |starts|
      ensures Reached(t, green, writes, may, 0, t, green) && Sends(writes, may, 0) == []
    {
      RanNothing(t);
      NoneThrottled(green, t, writes, may);
    }

    lemma ReachedIs(first: Test, lights: seq<bool>, writes: seq<int>, may: seq<bool>, n: nat, t: Test, green: seq<bool>)
      requires n <= |writes| == |may| == |lights| == |green| == |t.streams| == |starts|
      requires Reached(first, lights, writes, may, n, t, green)
      ensures var events := Sends(writes, may, n);
              && Ran(first, events, t) && t.sent == first.sent + BytesOf(events) && t.blocks == first.blocks + |events|
              && Throttled(lights, green, t, writes, may, n)
    {
    }

    /** The stream i has its turn in a pass. */
    method Visit(i: nat, writes: seq<int>, ready: seq<bool>, ghost first: Test, ghost lights: seq<bool>,
                 ghost slack: int)
      returns (n: int, sent: bool)
      requires Valid() && i < |starts| == |writes| == |ready| == |lights| && IsWrite(writes[i], blksize)
      requires Reached(first, lights, writes, May(lights, ready), i, tally, green)
      modifies this`tally, this`green, this`moments
      ensures Valid() && Reached(first, lights, writes, May(lights, ready), i + 1, tally, green)
      ensures n == if May(lights, ready)[i] then writes[i] else 0
      ensures sent <==> May(lights, ready)[i] && 0 <= writes[i]
      ensures Sends(writes, May(lights, ready), i + 1) != [] <==> Sends(writes, May(lights, ready), i) != [] || sent
      ensures tally.sent == first.sent + BytesOf(Sends(writes, May(lights, ready), i + 1))
      ensures tally.blocks == first.blocks + |Sends(writes, May(lights, ready), i + 1)|
      ensures old(moments) <= moments
      ensures old(Held() && Paced() && RoundWithin(i, slack)) && Room(slack) ==>
                Held() && Paced() && RoundWithin(i + 1, slack)
    {
      hide Within, Bounded, Paced, Ran, RoundWithin, Room, Slow, BytesOf, Sends, Throttled;
      ghost var may, last, green0, events := May(lights, ready), tally, green, Sends(writes, May(lights, ready), i);
      ghost var sending: seq<Event>;
      n, sent, sending := Turn(i, writes[i], ready[i], slack);
      RanOn(first, events, last, sending, tally);
      BytesOfBoth(events, sending);
      SendsMore(writes, may, i);
      ThrottledMore(lights, green0, green, last, tally, writes, may, i);
    }

    /** One pass of iperf_send over the streams, with so many passes left, this one included: what it sends, where it
        stops, and how far it can pass a limit. */
    method Round(multisend: nat, writes: seq<int>, ready: seq<bool>, ghost slack: int)
      returns (r: int, active: bool, ghost events: seq<Event>, ghost reached: nat)
      requires Valid() && 0 < multisend
      requires |writes| == |ready| == |starts| && forall w <- writes :: IsWrite(w, blksize)
      modifies this`tally, this`green, this`moments
      ensures Valid() && reached <= |starts|
      ensures StopsAt(old(tally).sent, old(tally).blocks, writes, May(old(green), ready), multisend > 1, reached)
      ensures r == if Fails(writes, May(old(green), ready), reached) then NET_HARDERROR else 0
      ensures events == Sends(writes, May(old(green), ready), reached) && (active <==> events != [])
      ensures Throttled(old(green), green, tally, writes, May(old(green), ready), reached)
      ensures old(moments) <= moments
      ensures Ran(old(tally), events, tally)
      ensures tally.sent == old(tally).sent + BytesOf(events) && tally.blocks == old(tally).blocks + |events|
      ensures tally.sent <= old(tally.sent) + |starts| * blksize && tally.blocks <= old(tally.blocks) + |starts|
      ensures multisend > 1 && bytesLimit != 0 ==> Crossed(old(tally.sent), tally.sent, bytesLimit, blksize)
      ensures multisend > 1 && blocksLimit != 0 ==> Crossed(old(tally.blocks), tally.blocks, blocksLimit, 1)
      ensures old(Held() && Paced() && GreenWithin(slack)) && Room(slack) ==>
                Paced() && (r == 0 ==> GreenWithin(if burst == 0 then 0 else slack + blksize))
    {
      hide Within, Bounded, Paced, Ran, RoundWithin, GreenWithin, Crossed, Slow, BytesOf, Sends, StopsAt, Throttled,
           Fails;
      ghost var first, may := tally, May(green, ready);
      if GreenWithin(slack) {
        StartRound(slack);
      }
      r, active, events, reached := Pass(multisend > 1, writes, ready, slack);
      PassBounds(first.sent, first.blocks, writes, may, multisend > 1, reached);
      if RoundWithin(reached, slack) && Room(slack) {
        EndRound(reached, slack);
      }
    }

    lemma NoSends(writes: seq<int>, may: seq<bool>)
      requires |writes| == |may|
      ensures Sends(writes, may, 0) == [] && BytesOf([]) == 0
    {
    }

    lemma SendsMore(writes: seq<int>, may: seq<bool>, k: nat)
      requires k < |writes| == |may|
      ensures Sends(writes, may, k + 1) ==
              Sends(writes, may, k) + if may[k] && 0 <= writes[k] then [Sent(k, writes[k])] else []
    {
    }

    /** The stream k has its turn, and the pass goes on behind it. */
    ghost predicate GoesOn(sent: nat, blocks: nat, writes: seq<int>, may: seq<bool>, more: bool, k: nat)
      requires k < |writes| == |may|
    {
      && 0 <= writes[k]
      && (more ==> !LimitReached(sent + BytesOf(Sends(writes, may, k + 1)), blocks + |Sends(writes, may, k + 1)|))
    }

    lemma StopsAtEnd(sent: nat, blocks: nat, writes: seq<int>, may: seq<bool>, more: bool)
      requires |writes| == |may|
      requires forall k: nat :: k < |may| && may[k] ==> GoesOn(sent, blocks, writes, may, more, k)
      ensures StopsAt(sent, blocks, writes, may, more, |may|) && !Fails(writes, may, |may|)
    {
      hide BytesOf, Sends, LimitReached;
    }

    /** Behind the stream k. */
    lemma StopsOrGoesOn(sent: nat, blocks: nat, writes: seq<int>, may: seq<bool>, more: bool, k: nat)
      requires k < |writes| == |may|
      requires forall j: nat :: j < k && may[j] ==> GoesOn(sent, blocks, writes, may, more, j)
      ensures var sent', blocks' := sent + BytesOf(Sends(writes, may, k + 1)), blocks + |Sends(writes, may, k + 1)|;
              && (Fails(writes, may, k + 1) <==> may[k] && writes[k] == NET_HARDERROR)
              && (may[k] && (writes[k] < 0
                             || (more && bytesLimit != 0 && sent' >= bytesLimit)
                             || (more && blocksLimit != 0 && blocks' >= blocksLimit)) ==>
                    StopsAt(sent, blocks, writes, may, more, k + 1))
              && (may[k] && 0 <= writes[k] && !(more && bytesLimit != 0 && sent' >= bytesLimit)
                  && !(more && blocksLimit != 0 && blocks' >= blocksLimit) ==>
                    GoesOn(sent, blocks, writes, may, more, k))
              && (k + 1 == |may| && (may[k] ==> GoesOn(sent, blocks, writes, may, more, k)) ==>
                    StopsAt(sent, blocks, writes, may, more, k + 1))
    {
      hide BytesOf, Sends;
    }

    lemma NoneThrottled(green: seq<bool>, t: Test, writes: seq<int>, may: seq<bool>)
      requires |writes| == |may| == |green| == |t.streams| == |starts|
      ensures Throttled(green, green, t, writes, may, 0)
    {
    }

    lemma NotThrottled(before: seq<bool>, after: seq<bool>, t: Test, writes: seq<int>, may: seq<bool>, n: nat)
      requires n <= |writes| == |may| == |before| == |after| == |t.streams| == |starts|
      requires Throttled(before, after, t, writes, may, n) && (rate == 0 || burst != 0)
      ensures after == before
    {
      hide Slow;
    }

    lemma ThrottledMore(before: seq<bool>, green: seq<bool>, green': seq<bool>, t: Test, t': Test, writes: seq<int>,
                        may: seq<bool>, k: nat)
      requires k < |writes| == |may| == |before| == |green| == |green'| == |t.streams| == |t'.streams| == |starts|
      requires Throttled(before, green, t, writes, may, k)
      requires forall j :: 0 <= j < |starts| && j != k ==> t'.streams[j] == t.streams[j]
      requires green' == if !(may[k] && 0 <= writes[k]) || rate == 0 || burst != 0 || done then green
                         else green[k := Slow(t', k, now)]
      ensures Throttled(before, green', t', writes, may, k + 1)
    {
    }

    // ---- how far a pass goes ----

    /** One stream more sends a block at most. */
    lemma OneMore(writes: seq<int>, may: seq<bool>, k: nat)
      requires k < |writes| == |may| && IsWrite(writes[k], blksize)
      ensures var before, after := Sends(writes, may, k), Sends(writes, may, k + 1);
              && BytesOf(before) <= BytesOf(after) <= BytesOf(before) + blksize
              && |before| <= |after| <= |before| + 1
              && (!(may[k] && 0 <= writes[k]) ==> after == before)
    {
      hide Sends, BytesOf;
      SendsMore(writes, may, k);
      if may[k] && 0 <= writes[k] {
        BytesOfMore(Sends(writes, may, k), Sent(k, writes[k]));
      } else {
        assert Sends(writes, may, k) + [] == Sends(writes, may, k);
      }
    }

    lemma {:induction false} AtMostBlocks(writes: seq<int>, may: seq<bool>, n: nat)
      requires n <= |writes| == |may| && forall w <- writes :: IsWrite(w, blksize)
      ensures BytesOf(Sends(writes, may, n)) <= n * blksize && |Sends(writes, may, n)| <= n
    {
      hide BytesOf;
      if n > 0 {
        assert writes[n - 1] in writes;
        AtMostBlocks(writes, may, n - 1);
        OneMore(writes, may, n - 1);
        assert (n - 1) * blksize + blksize == n * blksize;
      } else {
        NoSends(writes, may);
      }
    }

    /** Before the last stream of a pass no limit is reached that was not reached at its start. */
    lemma {:induction false} BelowOrSame(sent: nat, blocks: nat, writes: seq<int>, may: seq<bool>, n: nat, k: nat)
      requires |writes| == |may| && StopsAt(sent, blocks, writes, may, true, n) && k < n
      requires forall w <- writes :: IsWrite(w, blksize)
      ensures var events := Sends(writes, may, k);
              events == [] || !LimitReached(sent + BytesOf(events), blocks + |events|)
    {
      hide BytesOf, Sends;
      if k > 0 {
        assert writes[k - 1] in writes;
        BelowOrSame(sent, blocks, writes, may, n, k - 1);
        OneMore(writes, may, k - 1);
      } else {
        NoSends(writes, may);
      }
    }

    lemma PassBounds(sent: nat, blocks: nat, writes: seq<int>, may: seq<bool>, more: bool, n: nat)
      requires |writes| == |may| == |starts| && StopsAt(sent, blocks, writes, may, more, n)
      requires forall w <- writes :: IsWrite(w, blksize)
      ensures var sent', blocks' := sent + BytesOf(Sends(writes, may, n)), blocks + |Sends(writes, may, n)|;
              && sent' <= sent + |starts| * blksize && blocks' <= blocks + |starts|
              && (more && bytesLimit != 0 ==> Crossed(sent, sent', bytesLimit, blksize))
              && (more && blocksLimit != 0 ==> Crossed(blocks, blocks', blocksLimit, 1))
    {
      hide BytesOf, Sends;
      AtMostBlocks(writes, may, n);
      ProductGrows(n, |starts|, blksize);
      NoSends(writes, may);
      if n > 0 && more {
        assert writes[n - 1] in writes;
        BelowOrSame(sent, blocks, writes, may, n, n - 1);
        OneMore(writes, may, n - 1);
      }
    }

    lemma StartRound(slack: int)
      requires Valid() && GreenWithin(slack)
      ensures RoundWithin(0, slack)
    {
    }

    lemma SkipTurn(i: nat, slack: int)
      requires Valid() && i < |starts|
      ensures RoundWithin(i, slack) ==> RoundWithin(i + 1, slack)
    {
      if AheadBy(i, slack) {
        WithinMore(tally.streams[i].sent, 0, rate, now - starts[i], slack, slack + blksize);
      }
    }

    lemma EndRound(p: nat, slack: int)
      requires Valid() && RoundWithin(p, slack) && Room(slack)
      ensures GreenWithin(if burst == 0 then 0 else slack + blksize)
    {
      forall i | 0 <= i < |starts| && AheadBy(i, slack) ensures AheadBy(i, slack + blksize) {
        WithinMore(tally.streams[i].sent, 0, rate, now - starts[i], slack, slack + blksize);
      }
    }

    // ---- a whole call ----

    function Rounds(): nat {
      if burst != 0 then burst else if rate == 0 then multisend else 1
    }

    /** The k-th pass stopped where it should, with what the passes before it have sent. */
    ghost predicate StoppedAt(sent: nat, blocks: nat, writes: seq<seq<int>>, may: seq<bool>, reached: seq<nat>, k: nat)
      requires k < |reached| <= |writes| && forall j :: 0 <= j < |reached| ==> reached[j] <= |writes[j]| == |may|
    {
      var before := Passes(writes, may, reached, k);
      StopsAt(sent + BytesOf(before), blocks + |before|, writes[k], may, Rounds() - k > 1, reached[k])
    }

    /** No pass follows one that sends nothing, or that fails. */
    ghost predicate Ends(writes: seq<int>, may: seq<bool>, n: nat)
      requires n <= |writes| == |may|
    {
      Sends(writes, may, n) == [] || Fails(writes, may, n)
    }

    /** Where the passes of a call have stopped so far; none of them is the last. */
    ghost predicate SoFar(t: Test, writes: seq<seq<int>>, may: seq<bool>, reached: seq<nat>) {
      && |reached| <= |writes| == Rounds()
      && (forall j :: 0 <= j < |reached| ==> reached[j] <= |writes[j]| == |may|)
      && (forall j: nat :: j < |reached| ==> StoppedAt(t.sent, t.blocks, writes, may, reached, j))
      && (forall j: nat :: j < |reached| ==> !Ends(writes[j], may, reached[j]))
    }

    /** Where the passes of a call stop, how many there are, and what the call returns. */
    ghost predicate AreRounds(t: Test, writes: seq<seq<int>>, may: seq<bool>, reached: seq<nat>, r: int) {
      && |reached| <= |writes| == Rounds()
      && (forall j :: 0 <= j < |reached| ==> reached[j] <= |writes[j]| == |may|)
      && (forall j: nat :: j < |reached| ==> StoppedAt(t.sent, t.blocks, writes, may, reached, j))
      && (forall j: nat :: j + 1 < |reached| ==> !Ends(writes[j], may, reached[j]))
      && (|reached| < Rounds() ==>
            0 < |reached| && Ends(writes[|reached| - 1], may, reached[|reached| - 1]))
      && r == if reached != [] && Fails(writes[|reached| - 1], may, reached[|reached| - 1]) then NET_HARDERROR else 0
    }

    /** The lights after a call: all are set by the throttle after bursts, and without bursts those of the streams that
        have sent. */
    ghost predicate Lit(b: Snapshot, writes: seq<seq<int>>, may: seq<bool>, reached: seq<nat>, a: Snapshot, r: int)
      reads this`done
      requires |starts| == |b.green| == |a.green| == |a.tally.streams| == |may|
    {
      forall k :: 0 <= k < |starts| ==>
        a.green[k] ==
          if !done && (if burst != 0 then r == 0
                       else rate != 0 && reached != [] && writes != [] && |writes[0]| == |may| && k < reached[0]
                            && may[k] && 0 <= writes[0][k])
          then Slow(a.tally, k, a.now)
          else b.green[k]
    }

    /** A call of iperf_send takes the sender from one state to another. */
    ghost predicate IsCall(b: Snapshot, writes: seq<seq<int>>, ready: seq<bool>, later: nat, reached: seq<nat>,
                           a: Snapshot, r: int)
      reads this`done
    {
      && |starts| == |b.green| == |ready| == |a.green| == |a.tally.streams|
      && var may := May(b.green, ready);
         && AreRounds(b.tally, writes, may, reached, r)
         && Ran(b.tally, Passes(writes, may, reached, |reached|), a.tally)
         && a.now == b.now + (if (if burst != 0 then r == 0 else rate != 0) then later else 0)
         && Lit(b, writes, may, reached, a, r)
    }

    ghost function View(): Snapshot
      reads this
    {
      Snapshot(tally, green, now)
    }

    ghost predicate AreWrites(writes: seq<seq<int>>) {
      AreWritesOf(writes, Rounds(), |starts|, blksize)
    }

    /** iperf_send: which passes it makes and what each sends; after a call that started below a limit the test is above
        it by less than a block for every round but the last, and a block for every stream in the last; and while the
        streams are held, none has been ahead of the rate by more than a block, or a burst, at any moment. */
    method Send(writes: seq<seq<int>>, ready: seq<bool>, later: nat) returns (r: int, ghost reached: seq<nat>)
      requires Valid() && AreWrites(writes) && |ready| == |starts|
      modifies this`tally, this`green, this`moments, this`now
      ensures Valid() && (r == 0 || r == NET_HARDERROR)
      ensures IsCall(old(View()), writes, ready, later, reached, View(), r)
      ensures old(moments) <= moments
      ensures Rounds() == 0 ==> tally == old(tally)
      ensures 0 < Rounds() && old(tally.sent) < bytesLimit ==>
                tally.sent < Above(bytesLimit, Rounds() - 1 + |starts|, blksize)
      ensures 0 < Rounds() && old(tally.blocks) < blocksLimit ==>
                tally.blocks < Above(blocksLimit, Rounds() - 1 + |starts|, 1)
      ensures old(Held() && Paced() && GreenWithin(0)) ==> Paced() && (r == 0 ==> GreenWithin(0))
    {
      hide Within, Bounded, Paced, Ran, GreenWithin, Above, Rounds, Slow, AreRounds, AreWrites, BytesOf, Passes;
      ghost var slack, first, may := 0, tally, May(green, ready);
      r, reached, slack := SendRounds(writes, ready, later);
      if 0 < Rounds() {
        CallBounds(first, writes, may, reached, r);
      }
      if r == 0 && burst != 0 {
        GetTimeOfDay(later, slack);
        CheckAll();
      }
    }

    /** The bytes and blocks of the test are those of the passes made. */
    ghost predicate Told(first: Test, writes: seq<seq<int>>, may: seq<bool>, reached: seq<nat>, t: Test) {
      && |reached| <= |writes| && (forall j :: 0 <= j < |reached| ==> reached[j] <= |writes[j]| == |may|)
      && var events := Passes(writes, may, reached, |reached|);
         Ran(first, events, t) && t.sent == first.sent + BytesOf(events) && t.blocks == first.blocks + |events|
    }

    /** The next pass of a call, with so many left, and those made so far. */
    method NextRound(m: nat, writes: seq<seq<int>>, ready: seq<bool>, ghost first: Test, ghost so: seq<nat>,
                     ghost slack: int)
      returns (r: int, active: bool, ghost reached: seq<nat>)
      requires Valid() && AreWrites(writes) && |ready| == |starts| && 0 < m && m + |so| == Rounds()
      requires SoFar(first, writes, May(green, ready), so) && Told(first, writes, May(green, ready), so, tally)
      modifies this`tally, this`green, this`moments
      ensures Valid() && |reached| == |so| + 1 && (r == 0 || r == NET_HARDERROR) && old(moments) <= moments
      ensures Told(first, writes, May(old(green), ready), reached, tally)
      ensures if r == 0 && active then SoFar(first, writes, May(old(green), ready), reached)
              else AreRounds(first, writes, May(old(green), ready), reached, r)
      ensures m == 1 ==> AreRounds(first, writes, May(old(green), ready), reached, r)
      ensures if rate == 0 || burst != 0 then green == old(green)
              else
                && writes != [] && |writes[|so|]| == |starts| && reached[|so|] <= |starts|
                && Throttled(old(green), green, tally, writes[|so|], May(old(green), ready), reached[|so|])
      ensures old(Held() && Paced() && GreenWithin(slack)) && Room(slack) ==>
                Held() && Paced() && (r == 0 ==> GreenWithin(if burst == 0 then 0 else slack + blksize))
    {
      hide Within, Bounded, Paced, Ran, GreenWithin, Crossed, Room, Slow, StopsAt, Sends, BytesOf, Fails, StoppedAt,
           Ends, AreRounds, Throttled;
      ghost var may, before, events := May(green, ready), tally, Passes(writes, May(green, ready), so, |so|);
      var n: nat := Rounds() - m;
      assert writes[n] in writes;
      ghost var more: seq<Event>, stop: nat;
      r, active, more, stop := Round(m, writes[n], ready, slack);
      if rate == 0 || burst != 0 {
        NotThrottled(old(green), green, tally, writes[n], may, stop);
      }
      RanOn(first, events, before, more, tally);
      BytesOfBoth(events, more);
      RoundMore(first, writes, may, so, stop);
      reached := so + [stop];
    }

    method SendRounds(writes: seq<seq<int>>, ready: seq<bool>, later: nat)
      returns (r: int, ghost reached: seq<nat>, ghost slack: int)
      requires Valid() && AreWrites(writes) && |ready| == |starts|
      modifies this`tally, this`green, this`moments, this`now
      ensures Valid() && (r == 0 || r == NET_HARDERROR)
      ensures old(moments) <= moments && now == old(now) + if rate != 0 && burst == 0 then later else 0
      ensures AreRounds(old(tally), writes, May(old(green), ready), reached, r)
      ensures Told(old(tally), writes, May(old(green), ready), reached, tally)
      ensures if rate == 0 || burst != 0 then green == old(green)
              else
                && reached != [] && writes != [] && |writes[0]| == |starts| && reached[0] <= |starts|
                && Throttled(old(green), green, tally, writes[0], May(old(green), ready), reached[0])
      ensures Rounds() == 0 ==> tally == old(tally)
      ensures burst == 0 ==> slack == 0
      ensures old(Held() && Paced() && GreenWithin(0)) ==> Held() && Paced() && (r == 0 ==> GreenWithin(slack))
    {
      hide Within, Bounded, Paced, GreenWithin, Room, SoFar, AreRounds, Throttled, SlackAfter, Told, AreWrites;
      ghost var paced := Held() && Paced() && GreenWithin(0);
      ghost var first := tally;
      var m: nat := Rounds();
      r, reached, slack := 0, [], 0;
      NoRounds(tally, writes, May(green, ready));
      NoSlack();
      while m > 0
        invariant Valid() && m + |reached| == Rounds() && r == 0 && old(moments) <= moments
        invariant now == old(now) + if rate != 0 && burst == 0 && reached != [] then later else 0
        invariant Told(first, writes, May(old(green), ready), reached, tally)
        invariant m > 0 ==> SoFar(first, writes, May(old(green), ready), reached)
        invariant m == 0 ==> AreRounds(first, writes, May(old(green), ready), reached, 0)
        invariant if rate == 0 || burst != 0 || reached == [] then green == old(green)
                  else
                    && m == 0 && writes != [] && |writes[0]| == |starts| && reached[0] <= |starts|
                    && Throttled(old(green), green, tally, writes[0], May(old(green), ready), reached[0])
        invariant reached == [] ==> tally == first
        invariant slack == SlackAfter(|reached|)
        invariant paced ==> Held() && Paced() && GreenWithin(slack)
      {
        SlackRoom(|reached|);
        if rate != 0 && burst == 0 {
          GetTimeOfDay(later, slack);
        }
        var active: bool;
        r, active, reached := NextRound(m, writes, ready, first, reached, slack);
        slack := if burst == 0 then 0 else slack + blksize;
        if r < 0 || !active {
          return;
        }
        m := m - 1;
      }
    }

    lemma NoPasses(writes: seq<seq<int>>, may: seq<bool>)
      ensures Passes(writes, may, [], 0) == [] && BytesOf([]) == 0
    {
    }

    lemma NoSlack()
      ensures SlackAfter(0) == 0 && (burst == 0 ==> forall j: nat :: SlackAfter(j) == 0)
    {
    }

    lemma NoRounds(t: Test, writes: seq<seq<int>>, may: seq<bool>)
      requires AreWrites(writes)
      ensures SoFar(t, writes, may, []) && Told(t, writes, may, [], t)
      ensures Rounds() == 0 ==> AreRounds(t, writes, may, [], 0)
    {
      RanNothing(t);
    }

    /** One pass more: it is the last, or others may follow. */
    lemma RoundMore(t: Test, writes: seq<seq<int>>, may: seq<bool>, reached: seq<nat>, n: nat)
      requires SoFar(t, writes, may, reached) && |reached| < |writes| && n <= |writes[|reached|]| == |may|
      requires var events := Passes(writes, may, reached, |reached|);
               StopsAt(t.sent + BytesOf(events), t.blocks + |events|, writes[|reached|], may,
                       Rounds() - |reached| > 1, n)
      ensures var events, more, w := Passes(writes, may, reached, |reached|), reached + [n], writes[|reached|];
              && (forall k :: 0 <= k < |more| ==> more[k] <= |writes[k]| == |may|)
              && Passes(writes, may, more, |more|) == events + Sends(w, may, n)
              && (Sends(w, may, n) != [] && !Fails(w, may, n) ==> SoFar(t, writes, may, more))
              && (Sends(w, may, n) == [] || Fails(w, may, n) || |more| == Rounds() ==>
                    AreRounds(t, writes, may, more, if Fails(w, may, n) then NET_HARDERROR else 0))
    {
      hide StopsAt, Sends, BytesOf, Fails;
      var more := reached + [n];
      PassesMore(writes, may, reached, n, |reached|);
      forall k: nat | k < |more| ensures StoppedAt(t.sent, t.blocks, writes, may, more, k) {
        if k < |reached| {
          PassesMore(writes, may, reached, n, k);
          assert StoppedAt(t.sent, t.blocks, writes, may, reached, k);
        }
      }
      assert forall j: nat :: j < |reached| ==> more[j] == reached[j];
    }

    /** The pass k, from what the test had sent before it. */
    lemma OneRoundAbove(sent: nat, blocks: nat, before: seq<Event>, w: seq<int>, may: seq<bool>, n: nat, k: nat)
      requires k < Rounds() && n <= |w| == |may| == |starts| && forall x <- w :: IsWrite(x, blksize)
      requires StopsAt(sent + BytesOf(before), blocks + |before|, w, may, Rounds() - k > 1, n)
      ensures var after := before + Sends(w, may, n);
              && (bytesLimit != 0 && sent + BytesOf(before) < Above(bytesLimit, k, blksize) ==>
                    && sent + BytesOf(after) < Above(bytesLimit, Rounds() - 1 + |starts|, blksize)
                    && (k + 1 < Rounds() ==> sent + BytesOf(after) < Above(bytesLimit, k + 1, blksize)))
              && (blocksLimit != 0 && blocks + |before| < Above(blocksLimit, k, 1) ==>
                    && blocks + |after| < Above(blocksLimit, Rounds() - 1 + |starts|, 1)
                    && (k + 1 < Rounds() ==> blocks + |after| < Above(blocksLimit, k + 1, 1)))
    {
      hide Sends, BytesOf, StopsAt, Crossed, Above, Rounds;
      PassBounds(sent + BytesOf(before), blocks + |before|, w, may, Rounds() - k > 1, n);
      BytesOfBoth(before, Sends(w, may, n));
      var after := before + Sends(w, may, n);
      if bytesLimit != 0 && sent + BytesOf(before) < Above(bytesLimit, k, blksize) {
        RoundAbove(sent + BytesOf(before), sent + BytesOf(after), bytesLimit, k, Rounds(), |starts|, blksize);
      }
      if blocksLimit != 0 && blocks + |before| < Above(blocksLimit, k, 1) {
        RoundAbove(blocks + |before|, blocks + |after|, blocksLimit, k, Rounds(), |starts|, 1);
      }
    }

    /** As long as passes are to come, the test is above its limit by less than a block for each of them. */
    lemma {:induction false} RoundsAbove(t: Test, writes: seq<seq<int>>, may: seq<bool>, reached: seq<nat>, r: int,
                                         j: nat)
      requires AreRounds(t, writes, may, reached, r) && AreWrites(writes) && |may| == |starts| && j <= |reached|
      ensures var events := Passes(writes, may, reached, j);
              && (j < Rounds() && t.sent < bytesLimit ==> t.sent + BytesOf(events) < Above(bytesLimit, j, blksize))
              && (j < Rounds() && t.blocks < blocksLimit ==> t.blocks + |events| < Above(blocksLimit, j, 1))
              && (j == Rounds() && 0 < j && t.sent < bytesLimit ==>
                    t.sent + BytesOf(events) < Above(bytesLimit, j - 1 + |starts|, blksize))
              && (j == Rounds() && 0 < j && t.blocks < blocksLimit ==>
                    t.blocks + |events| < Above(blocksLimit, j - 1 + |starts|, 1))
    {
      hide Sends, BytesOf, StopsAt, Fails, Ends, Above, Rounds;
      NoPasses(writes, may);
      AboveStart(bytesLimit, Rounds(), |starts|, blksize);
      AboveStart(blocksLimit, Rounds(), |starts|, 1);
      if j > 0 {
        RoundsAbove(t, writes, may, reached, r, j - 1);
        assert writes[j - 1] in writes && StoppedAt(t.sent, t.blocks, writes, may, reached, j - 1);
        OneRoundAbove(t.sent, t.blocks, Passes(writes, may, reached, j - 1), writes[j - 1], may, reached[j - 1], j - 1);
      }
    }

    lemma CallBounds(t: Test, writes: seq<seq<int>>, may: seq<bool>, reached: seq<nat>, r: int)
      requires AreRounds(t, writes, may, reached, r) && AreWrites(writes) && |may| == |starts| && 0 < Rounds()
      ensures var events := Passes(writes, may, reached, |reached|);
              && (t.sent < bytesLimit ==>
                    t.sent + BytesOf(events) < Above(bytesLimit, Rounds() - 1 + |starts|, blksize))
              && (t.blocks < blocksLimit ==>
                    t.blocks + |events| < Above(blocksLimit, Rounds() - 1 + |starts|, 1))
    {
      hide AreWrites, Passes, StoppedAt, Ends, Fails;
      RoundsAbove(t, writes, may, reached, r, |reached|);
      if |reached| < Rounds() {
        ProductGrows(|reached|, Rounds() - 1 + |starts|, blksize);
      }
    }

    /** How far a stream may be ahead after j passes. */
    function SlackAfter(j: nat): nat {
      if burst == 0 then 0 else j * blksize
    }

    lemma SlackRoom(j: nat)
      requires j < Rounds()
      ensures 0 < rate ==> Room(SlackAfter(j))
      ensures SlackAfter(0) == 0
      ensures SlackAfter(j + 1) == if burst == 0 then 0 else SlackAfter(j) + blksize
    {
      if burst != 0 {
        ProductGrows(j + 1, burst, blksize);
      }
      assert (j + 1) * blksize == j * blksize + blksize;
    }

    /** Without a limit, and if no write fails, every pass is made, and every stream that may send sends in each. */
    lemma EveryStreamSends(b: Snapshot, writes: seq<seq<int>>, ready: seq<bool>, later: nat, reached: seq<nat>,
                           a: Snapshot, r: int, k: nat)
      requires IsCall(b, writes, ready, later, reached, a, r) && AreWrites(writes)
      requires bytesLimit == 0 && blocksLimit == 0 && k < |starts|
      requires !noFqPacing || (b.green[k] && ready[k])
      requires forall w <- writes :: forall x <- w :: 0 <= x
      ensures r == 0 && |reached| == if burst != 0 then burst else if rate == 0 then multisend else 1
      ensures |reached| == |writes| && forall j :: 0 <= j < |writes| ==>
                var w := writes[j];
                |w| == |starts| == reached[j] && 0 <= w[k] && Sent(k, w[k]) in Sends(w, May(b.green, ready), |starts|)
    {
      hide Sends, BytesOf, Passes, Ran, Lit, StopsAt, Ends, Fails, IsWrite;
      var may := May(b.green, ready);
      assert may[k];
      forall j: nat | j < |reached|
        ensures |writes[j]| == |starts| == reached[j] && !Ends(writes[j], may, reached[j])
        ensures !Fails(writes[j], may, reached[j])
        ensures 0 <= writes[j][k] && Sent(k, writes[j][k]) in Sends(writes[j], may, |starts|)
      {
        assert writes[j] in writes && StoppedAt(b.tally.sent, b.tally.blocks, writes, may, reached, j);
        var before := Passes(writes, may, reached, j);
        PassServes(b.tally.sent + BytesOf(before), b.tally.blocks + |before|, writes[j], may, Rounds() - j > 1,
                   reached[j], k);
      }
    }

    lemma PassServes(sent: nat, blocks: nat, w: seq<int>, may: seq<bool>, more: bool, n: nat, k: nat)
      requires |w| == |may| == |starts| && k < |starts| && may[k] && StopsAt(sent, blocks, w, may, more, n)
      requires bytesLimit == 0 && blocksLimit == 0 && forall x <- w :: 0 <= x
      ensures n == |starts| && 0 <= w[k] && Sent(k, w[k]) in Sends(w, may, n)
      ensures !Fails(w, may, n) && !Ends(w, may, n)
    {
      hide Sends, BytesOf;
      assert forall i :: 0 <= i < |w| ==> w[i] in w;
      SendsExactly(w, may, n);
    }

    // ---- between the calls ----

    /** send_timer_proc, when it is run */
    method SendTimerProc(i: nat, later: nat)
      requires Valid() && i < |starts|
      modifies this`green, this`moments, this`now
      ensures Valid() && now == old(now) + later
      ensures green == if done then old(green) else old(green)[i := Slow(tally, i, now)]
      ensures old(moments) <= moments
      ensures old(Held() && Paced() && GreenWithin(0)) ==> Paced() && GreenWithin(0)
    {
      hide Within, Bounded;
      GetTimeOfDay(later, 0);
      CheckThrottle(i);
    }

    /** The statistics and the end of the omitted period do not touch what the rate is measured by. */
    method Callback(e: Event)
      requires Valid() && Possible(tally, e) && !e.Sent?
      modifies this`tally
      ensures Valid() && tally == After(old(tally), e)
      ensures old(Paced() && GreenWithin(0)) ==> Paced() && GreenWithin(0)
    {
      hide Within;
      SentStays(tally, e);
      tally := After(tally, e);
    }

    // ---- a whole run ----

    ghost predicate Known(action: Action) {
      match action
      case SendAll(writes, ready, _) => AreWrites(writes) && |ready| == |starts|
      case Timer(i, _) => i < |starts|
      case _ => true
    }

    /** What an action makes of the sender. */
    ghost predicate Does(b: Snapshot, action: Action, a: Snapshot, r: int)
      reads this`done
    {
      match action
      case SendAll(writes, ready, later) => exists reached :: IsCall(b, writes, ready, later, reached, a, r)
      case Timer(i, later) =>
        && a.tally == b.tally && a.now == b.now + later && r == 0
        && i < |a.tally.streams| == |b.green| == |starts|
        && a.green == if done then b.green else b.green[i := Slow(a.tally, i, a.now)]
      case Statistics(e) =>
        && a.green == b.green && a.now == b.now && r == 0
        && a.tally == if Possible(b.tally, e) && !e.Sent? then After(b.tally, e) else b.tally
      case ReadClock(later) => a.tally == b.tally && a.green == b.green && a.now == b.now + later && r == 0
    }

    /** The loop of a side that sends: calls of iperf_send, timers and statistics in any order, until a send fails.  As
        long as the streams are held, none is ahead of the rate by more than the excess at any moment of the run. */
    method Drive(actions: seq<Action>) returns (r: int, ghost trace: seq<Snapshot>)
      requires Valid() && forall a <- actions :: Known(a)
      modifies this`tally, this`green, this`moments, this`now
      ensures Valid() && (r == 0 || r == NET_HARDERROR)
      ensures 0 < |trace| <= |actions| + 1 && trace[0] == old(View()) && trace[|trace| - 1] == View()
      ensures forall k :: 0 <= k < |trace| - 1 ==>
                Does(trace[k], actions[k], trace[k + 1], if k + 2 == |trace| then r else 0)
      ensures r == 0 ==> |trace| == |actions| + 1
      ensures old(Held() && Paced() && GreenWithin(0)) ==> Paced() && (r == 0 ==> Held() && GreenWithin(0))
      ensures old(moments) <= moments
    {
      hide Within, Bounded, Paced, GreenWithin, After, Possible, IsCall, Slow, AreWrites;
      ghost var paced := Held() && Paced() && GreenWithin(0);
      r, trace := 0, [View()];
      var n: nat := 0;
      while n < |actions|
        invariant Valid() && n <= |actions| && r == 0 && old(moments) <= moments
        invariant |trace| == n + 1 && trace[0] == old(View()) && trace[n] == View()
        invariant forall k :: 0 <= k < n ==> Does(trace[k], actions[k], trace[k + 1], 0)
        invariant paced ==> Held() && Paced() && GreenWithin(0)
      {
        assert Known(actions[n]);
        match actions[n] {
          case SendAll(writes, ready, later) =>
            ghost var reached;
            r, reached := Send(writes, ready, later);
            assert IsCall(trace[n], writes, ready, later, reached, View(), r);
          case Timer(i, later) => SendTimerProc(i, later);
          case Statistics(e) =>
            if Possible(tally, e) && !e.Sent? {
              Callback(e);
            }
          case ReadClock(later) => GetTimeOfDay(later, 0);
        }
        assert Does(trace[n], actions[n], View(), r);
        trace := trace + [View()];
        if r < 0 {
          return;
        }
        n := n + 1;
      }
    }

    method CheckAll()
      requires Valid()
      modifies this`green
      ensures Valid() && (!done ==> GreenWithin(0))
      ensures forall k :: 0 <= k < |starts| ==> green[k] == if done then old(green[k]) else Slow(tally, k, now)
      ensures old(Paced()) ==> Paced()
    {
      hide Within, Bounded, Slow;
      var i := 0;
      while i < |starts|
        invariant Valid() && 0 <= i <= |starts|
        invariant !done ==> forall k :: 0 <= k < i && green[k] ==> AheadBy(k, 0)
        invariant forall k :: 0 <= k < |starts| ==>
          green[k] == if k < i && !done then Slow(tally, k, now) else old(green[k])
      {
        CheckThrottle(i);
        i := i + 1;
      }
    }
  }

  /** Every moment of every run, from the start of the test on. */
  method SendingRun(rate: nat, burst: nat, blksize: nat, multisend: nat, bytesLimit: nat, blocksLimit: nat,
                    starts: seq<int>, now: int, udp: bool, hasRetransmits: bool, omitting: bool, actions: seq<Action>)
    returns (s: Sender, r: int, ghost trace: seq<Snapshot>)
    requires 0 < rate && forall i :: 0 <= i < |starts| ==> starts[i] < now
    requires forall a <- actions :: a.Timer? ==> a.i < |starts|
    requires forall a <- actions :: a.SendAll? ==>
               AreWritesOf(a.writes, if burst != 0 then burst else 1, |starts|, blksize) && |a.ready| == |starts|
    ensures fresh(s) && s.rate == rate && s.burst == burst && s.blksize == blksize && s.starts == starts
    ensures s.Paced() && 0 < |trace| <= |actions| + 1 && trace[|trace| - 1] == s.View()
    ensures forall m <- s.moments + [Moment(s.now, s.tally.streams)] ::
              |m.streams| == |starts| ==>
                forall i :: 0 <= i < |starts| ==>
                  8 * m.streams[i].sent * MEGA <=
                    rate * (m.now - starts[i]) + 8 * (if burst == 0 then blksize else burst * blksize) * MEGA
    ensures trace[0] == Snapshot(Started(true, udp, hasRetransmits, omitting, starts), seq(|starts|, _ => true), now)
    ensures r == 0 ==> |trace| == |actions| + 1
    ensures forall k :: 0 <= k < |trace| - 1 ==>
              s.Does(trace[k], actions[k], trace[k + 1], if k + 2 == |trace| then r else 0)
  {
    s := new Sender(rate, burst, blksize, multisend, bytesLimit, blocksLimit, true, starts, now, udp, hasRetransmits,
                    omitting);
    assert s.Held();
    forall a | a in actions ensures s.Known(a) {
    }
    r, trace := s.Drive(actions);
  }

  lemma SentStays(t: Test, e: Event)
    requires Possible(t, e) && !e.Sent?
    ensures var t' := After(t, e);
            && t'.sender == t.sender && |t'.streams| == |t.streams|
            && forall i :: 0 <= i < |t.streams| ==> t'.streams[i].sent == t.streams[i].sent
  {
  }

  /** A limit, and so many steps above it. */
  function Above(limit: nat, steps: int, step: nat): int {
    limit + steps * step
  }

  lemma AboveStart(limit: nat, rounds: nat, n: nat, step: nat)
    ensures Above(limit, 0, step) == limit
    ensures 0 < rounds ==> limit <= Above(limit, rounds - 1 + n, step)
  {
  }

  lemma RoundAbove(before: nat, after: nat, limit: nat, j: nat, rounds: nat, n: nat, step: nat)
    requires before < Above(limit, j, step) && j < rounds
    requires after <= before + n * step && (j + 1 < rounds ==> Crossed(before, after, limit, step))
    ensures after < Above(limit, rounds - 1 + n, step)
    ensures j + 1 < rounds ==> after < Above(limit, j + 1, step)
  {
    assert (j + n) * step == j * step + n * step;
    assert (j + 1) * step == j * step + step;
    if j + 1 < rounds {
      ProductGrows(j + 1, rounds - 1 + n, step);
    }
  }

  /** A round that is not the last: it stays below the limit, or passes it by less than one step, or goes one step
      further beyond it. */
  predicate Crossed(before: nat, after: nat, limit: nat, step: nat) {
    after < limit || (before < limit && after < limit + step) || after <= before + step
  }
}
