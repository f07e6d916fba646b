/**
 The count of lost datagrams (iperf_udp.c, iperf_udp_recv and iperf_udp_send), as long as it does not leave 32 bits.
 */
module UdpLoss {

  /** packet_count, cnt_error and outoforder_packets of a receiving stream */
  datatype Counts = Counts(packets: int, errors: int, outOfOrder: int)

  const NONE: Counts := Counts(0, 0, 0)

  /** A datagram with the number p: it is ahead, leaving a gap or not, or it is late. */
  function Receive(c: Counts, p: nat): Counts {
    if p >= c.packets + 1 then Counts(p, c.errors + (p - 1 - c.packets), c.outOfOrder)
    else c.(outOfOrder := c.outOfOrder + 1)
  }

  function ReceiveAll(ps: seq<nat>): Counts {
    if ps == [] then NONE else Receive(ReceiveAll(ps[..|ps| - 1]), ps[|ps| - 1])
  }

  /** m is the largest number received; 0 before any. */
  ghost predicate IsMaximum(m: int, ps: seq<nat>) {
    && (forall i :: 0 <= i < |ps| ==> ps[i] <= m)
    && (m == 0 || exists i :: 0 <= i < |ps| && ps[i] == m)
  }

  /** Every datagram is either counted once or made up for. */
  lemma {:induction false} EveryDatagramCounts(ps: seq<nat>)
    ensures var c := ReceiveAll(ps);
            && |ps| == c.packets - c.errors + c.outOfOrder
            && IsMaximum(c.packets, ps)
            && 0 <= c.errors <= c.packets && 0 <= c.outOfOrder <= |ps|
    decreases |ps|
  {
    if ps != [] {
      var init := ps[..|ps| - 1];
      EveryDatagramCounts(init);
      var c := ReceiveAll(init);
      if ps[|ps| - 1] <= c.packets && c.packets != 0 {
        var i :| 0 <= i < |init| && init[i] == c.packets;
        assert ps[i] == c.packets;
      }
      assert forall i :: 0 <= i < |init| ==> ps[i] == init[i];
    }
  }

  // ---- each count on its own ----

  /** The datagram at i came behind one with its own number or a larger one, or has the number 0. */
  ghost predicate IsLate(ps: seq<nat>, i: nat) {
    i < |ps| && (ps[i] == 0 || exists j: nat :: j < i && ps[i] <= ps[j])
  }

  ghost function Late(ps: seq<nat>): set<nat> {
    set i: nat | i < |ps| && IsLate(ps, i)
  }

  /** The datagram at i is the first with v or a larger number, and its number is larger. */
  ghost predicate PassesFirst(ps: seq<nat>, i: nat, v: nat) {
    i < |ps| && v < ps[i] && forall j: nat :: j < i ==> ps[j] < v
  }

  /** The number v had not come when a larger one first did. */
  ghost predicate IsSkipped(ps: seq<nat>, v: nat) {
    exists i: nat :: PassesFirst(ps, i, v)
  }

  ghost function Skipped(ps: seq<nat>, m: int): set<nat> {
    set v: nat | 1 <= v <= m && IsSkipped(ps, v)
  }

  /** What is reported as out of order is the number of late datagrams, and the errors are the skipped numbers, also
      those that came after all. */
  lemma {:induction false} CountsAre(ps: seq<nat>)
    ensures var c := ReceiveAll(ps);
            c.outOfOrder == |Late(ps)| && c.errors == |Skipped(ps, c.packets)|
    decreases |ps|
  {
    if ps != [] {
      var init, last := ps[..|ps| - 1], ps[|ps| - 1];
      var c := ReceiveAll(init);
      CountsAre(init);
      EveryDatagramCounts(init);
      assert init + [last] == ps;
      LateMore(init, last, c.packets);
      SkippedMore(init, last, c.packets);
    } else {
      assert Late([]) == {} && Skipped([], 0) == {};
    }
  }

  lemma LateMore(ps: seq<nat>, p: nat, m: nat)
    requires IsMaximum(m, ps)
    ensures Late(ps + [p]) == if p <= m then Late(ps) + {|ps|} else Late(ps)
  {
    var all := ps + [p];
    forall i: nat | i < |ps| ensures IsLate(all, i) <==> IsLate(ps, i) {
      assert forall j: nat :: j <= i ==> all[j] == ps[j];
    }
    assert IsLate(all, |ps|) <==> p <= m by {
      assert forall j: nat :: j < |ps| ==> all[j] == ps[j] <= m;
      if 0 < p <= m {
        var j :| 0 <= j < |ps| && ps[j] == m;
        assert all[|ps|] <= all[j];
      }
    }
  }

  /** The numbers between two. */
  ghost function Gap(m: nat, p: nat): set<nat> {
    if p <= m + 1 then {} else Gap(m, p - 1) + {p - 1}
  }

  lemma {:induction false} GapSize(m: nat, p: nat)
    requires m < p
    ensures |Gap(m, p)| == p - 1 - m
    ensures forall v: nat :: v in Gap(m, p) <==> m < v < p
  {
    if m + 1 < p {
      GapSize(m, p - 1);
    }
  }

  lemma SkippedBy(ps: seq<nat>, p: nat, m: nat, v: nat)
    requires IsMaximum(m, ps) && 1 <= v
    ensures IsSkipped(ps + [p], v) <==> IsSkipped(ps, v) || m < v < p
    ensures IsSkipped(ps, v) ==> v < m
  {
    var all := ps + [p];
    forall i: nat | i < |ps| ensures PassesFirst(all, i, v) <==> PassesFirst(ps, i, v) {
      assert forall j: nat :: j <= i ==> all[j] == ps[j];
    }
    assert forall j: nat :: j < |ps| ==> all[j] == ps[j] <= m;
    if m < v < p {
      assert PassesFirst(all, |ps|, v);
    }
    assert v <= m ==> exists j: nat :: j < |ps| && all[j] == m;
    if IsSkipped(all, v) && !IsSkipped(ps, v) {
      var i: nat :| PassesFirst(all, i, v);
      assert i == |ps|;
    }
    if IsSkipped(ps, v) {
      var i: nat :| PassesFirst(ps, i, v);
    }
  }

  lemma SkippedMore(ps: seq<nat>, p: nat, m: nat)
    requires IsMaximum(m, ps)
    ensures p <= m ==> Skipped(ps + [p], m) == Skipped(ps, m)
    ensures p > m ==> |Skipped(ps + [p], p)| == |Skipped(ps, m)| + p - 1 - m
  {
    hide IsSkipped, IsMaximum;
    forall v: nat | 1 <= v
      ensures IsSkipped(ps + [p], v) <==> IsSkipped(ps, v) || m < v < p
      ensures IsSkipped(ps, v) ==> v < m
    {
      SkippedBy(ps, p, m, v);
    }
    if p > m {
      GapSize(m, p);
      assert Skipped(ps + [p], p) == Skipped(ps, m) + Gap(m, p);
      assert Skipped(ps, m) !! Gap(m, p);
    }
  }

  // ---- what the counts say of the network ----

  ghost function Numbers(n: nat): set<nat> {
    if n == 0 then {} else Numbers(n - 1) + {n}
  }

  /** The numbers up to the largest received that never came. */
  ghost function Missing(ps: seq<nat>): set<nat> {
    set i: nat | 1 <= i <= ReceiveAll(ps).packets && i !in ps
  }

  ghost function Arrived(ps: seq<nat>): set<nat> {
    set i: nat | 1 <= i && i in ps
  }

  ghost predicate Distinct(ps: seq<nat>) {
    forall i, j :: 0 <= i < j < |ps| ==> ps[i] != ps[j]
  }

  lemma {:induction false} NumbersSize(n: nat)
    ensures |Numbers(n)| == n
    ensures forall i: nat :: i in Numbers(n) <==> 1 <= i <= n
  {
    if n > 0 {
      NumbersSize(n - 1);
    }
  }

  lemma {:induction false} ArrivedSize(ps: seq<nat>)
    ensures |Arrived(ps)| <= |ps|
    ensures |Arrived(ps)| == |ps| <==> Distinct(ps) && forall i :: 0 <= i < |ps| ==> 1 <= ps[i]
    decreases |ps|
  {
    if ps != [] {
      var init, last := ps[..|ps| - 1], ps[|ps| - 1];
      ArrivedSize(init);
      ArrivedMore(init, last);
      DistinctMore(init, last);
      assert ps == init + [last];
      hide Arrived, Distinct;
      assert (forall i :: 0 <= i < |ps| ==> 1 <= ps[i]) <==>
             (forall i :: 0 <= i < |init| ==> 1 <= init[i]) && 1 <= last;
    }
  }

  lemma ArrivedMore(ps: seq<nat>, p: nat)
    ensures Arrived(ps + [p]) == if p == 0 then Arrived(ps) else Arrived(ps) + {p}
    ensures p in Arrived(ps) <==> 1 <= p && p in ps
  {
  }

  lemma DistinctMore(ps: seq<nat>, p: nat)
    ensures Distinct(ps + [p]) <==> Distinct(ps) && p !in ps
  {
    var all := ps + [p];
    if Distinct(all) {
      assert forall i :: 0 <= i < |ps| ==> all[i] == ps[i] && all[i] != all[|ps|];
    }
  }

  /** The reported loss is too low by the number of datagrams that came twice, or carried the number 0; so it is exact
      if and only if there are none of them. */
  lemma LossIsExact(ps: seq<nat>)
    ensures var c := ReceiveAll(ps);
            && |Missing(ps)| == c.errors - c.outOfOrder + (|ps| - |Arrived(ps)|)
            && (|Missing(ps)| == c.errors - c.outOfOrder <==>
                Distinct(ps) && forall i :: 0 <= i < |ps| ==> 1 <= ps[i])
  {
    var n := ReceiveAll(ps).packets;
    EveryDatagramCounts(ps);
    NumbersSize(n);
    ArrivedSize(ps);
    assert Numbers(n) == Missing(ps) + Arrived(ps);
    assert Missing(ps) !! Arrived(ps);
  }

  /** The order of arrival moves packets between the two counts, but does not change the loss. */
  lemma OrderDoesNotMatter(ps: seq<nat>, qs: seq<nat>)
    requires multiset(ps) == multiset(qs)
    ensures var c, d := ReceiveAll(ps), ReceiveAll(qs);
            c.packets == d.packets && c.errors - c.outOfOrder == d.errors - d.outOfOrder
  {
    EveryDatagramCounts(ps);
    EveryDatagramCounts(qs);
    assert |multiset(ps)| == |multiset(qs)|;
    assert forall i :: 0 <= i < |ps| ==> ps[i] in multiset(ps);
    assert forall i :: 0 <= i < |qs| ==> qs[i] in multiset(qs);
    assert forall p :: p in ps <==> p in qs by {
      forall p ensures p in ps <==> p in qs {
        assert p in ps <==> p in multiset(ps);
        assert p in qs <==> p in multiset(qs);
      }
    }
    SameMaximum(ReceiveAll(ps).packets, ps, ReceiveAll(qs).packets, qs);
  }

  lemma SameMaximum(m: int, ps: seq<nat>, n: int, qs: seq<nat>)
    requires IsMaximum(m, ps) && IsMaximum(n, qs) && m >= 0 && n >= 0
    requires forall p :: p in ps <==> p in qs
    ensures m == n
  {
    if m != 0 {
      var i :| 0 <= i < |ps| && ps[i] == m;
      assert ps[i] in qs;
    }
    if n != 0 {
      var i :| 0 <= i < |qs| && qs[i] == n;
      assert qs[i] in ps;
    }
  }

  // ---- both ends ----

  /** A sending stream numbers its datagrams 1, 2, 3 and so on, also those that the system does not take. */
  class UdpStream {
    var packets: int
    var errors: int
    var outOfOrder: int

    ghost function View(): Counts
      reads this
    {
      Counts(packets, errors, outOfOrder)
    }

    constructor ()
      ensures View() == NONE
    {
      packets, errors, outOfOrder := 0, 0, 0;
    }

    method Recv(pcount: nat)
      modifies this
      ensures View() == Receive(old(View()), pcount)
    {
      if pcount >= packets + 1 {
        if pcount > packets + 1 {
          errors := errors + (pcount - 1 - packets);
        }
        packets := pcount;
      } else {
        outOfOrder := outOfOrder + 1;
      }
    }

    /** Returns the number the datagram carries. */
    method Send() returns (pcount: int)
      modifies this`packets
      ensures pcount == packets == old(packets) + 1
    {
      packets := packets + 1;
      pcount := packets;
    }
  }

  /** Of sent datagrams 1 to sent, those that arrive, once each and in any order, leave the receiver with the exact
      number lost, but for those after the last to arrive. */
  lemma LossOfSender(sent: nat, ps: seq<nat>)
    requires Distinct(ps) && forall i :: 0 <= i < |ps| ==> 1 <= ps[i] <= sent
    ensures var c := ReceiveAll(ps);
            && c.packets <= sent
            && sent - |ps| == (c.errors - c.outOfOrder) + (sent - c.packets)
            && |Missing(ps)| == c.errors - c.outOfOrder
  {
    EveryDatagramCounts(ps);
    LossIsExact(ps);
  }
}
