/**
 The timer lists of timer.c: a doubly linked list of active timers in the order of their due times, and a list of
 free ones.  The routines are proved against TimerSpec.
 */
module Timers {
  import opened ResettingTimers
  import opened Sequences
  import opened TimeVal
  import opened TimerSpec
  import opened Wrappers

  /** The free list after the timers have been put at its head one by one. */
  function Stacked<T>(freed: seq<T>, free: seq<T>): seq<T> {
    if freed == [] then free else Stacked(freed[1..], [freed[0]] + free)
  }

  lemma StackedNone<T>(free: seq<T>)
    ensures Stacked([], free) == free
  {
  }

  lemma {:induction false} StackedMore<T>(freed: seq<T>, t: T, free: seq<T>)
    ensures Stacked(freed + [t], free) == [t] + Stacked(freed, free)
  {
    if freed == [] {
      assert [] + [t] == [t];
    } else {
      assert (freed + [t])[1..] == freed[1..] + [t];
      StackedMore(freed[1..], t, [freed[0]] + free);
    }
  }

  lemma TurnIs<T>(es: seq<Entry<T>>, k: nat)
    requires k < |es|
    ensures Turn(es, k).0 == if es[k].periodic then Insert(Without(es, k), Later(es[k])) else Without(es, k)
  {
  }

  lemma ContinuedMore<T>(log: seq<Firing<T>>, freed: seq<T>, es: seq<Entry<T>>, k: nat, now: int)
    requires Runnable(es) && k < |es| && es[k].due <= now && Runnable(Turn(es, k).0)
    ensures Continued(log, freed, RunFrom(es, k, now)) ==
            Continued(log + [Firing(es[k].timer, es[k].due)],
                      if es[k].periodic then freed else freed + [es[k].timer],
                      RunFrom(Turn(es, k).0, Turn(es, k).1, now))
  {
    hide RunFrom, Turn, Runnable;
    RunStep(es, k, now, es[k].timer);
  }

  /** A run that has already fired and freed some timers. */
  function Continued<T>(log: seq<Firing<T>>, freed: seq<T>, r: Run<T>): Run<T> {
    Run(r.active, log + r.fired, freed + r.freed)
  }

  lemma ContinuedNone<T>(r: Run<T>)
    ensures Continued([], [], r) == r
  {
  }

  lemma ContinuedEnd<T>(log: seq<Firing<T>>, freed: seq<T>, es: seq<Entry<T>>)
    ensures Continued(log, freed, Run(es, [], [])) == Run(es, log, freed)
  {
    assert log + [] == log && freed + [] == freed;
  }

  lemma ContinuedResetting<T>(log: seq<Firing<T>>, freed: seq<T>, es: seq<Entry<T>>, k: nat, now: int,
                              resets: map<T, seq<T>>, periodic: set<T>)
    requires WellOrdered(es) && PeriodicIn(es, periodic) && ResetsWithin(resets, periodic)
    requires k < |es| && es[k].due <= now
    ensures var (es', k') := ResettingTurn(es, k, ResetBy(resets, es[k].timer), now);
            && WellOrdered(es') && PeriodicIn(es', periodic)
            && Continued(log, freed, ResettingRun(es, k, now, resets, periodic)) ==
                 Continued(log + [Firing(es[k].timer, es[k].due)],
                           if es[k].periodic then freed else freed + [es[k].timer],
                           ResettingRun(es', k', now, resets, periodic))
  {
    hide WellOrdered, PeriodicIn, ResetsWithin, ResettingTurn, ResetBy, Resettable, Pending;
    ResettableIn(es, es[k].timer, resets, periodic);
    TurnKeeps(es, k, ResetBy(resets, es[k].timer), now);
    PeriodicAfterTurn(es, k, ResetBy(resets, es[k].timer), now, periodic);
  }

  lemma ResettingRunEnds<T>(es: seq<Entry<T>>, k: nat, now: int, resets: map<T, seq<T>>, periodic: set<T>)
    requires WellOrdered(es) && PeriodicIn(es, periodic) && ResetsWithin(resets, periodic)
    requires k >= |es| || es[k].due > now
    ensures ResettingRun(es, k, now, resets, periodic) == Run(es, [], [])
  {
  }

  class Timer {
    var time: TimeVal
    var usecs: int
    var periodic: bool
    var client: int  // timer_proc and its client data
    var prev: Timer?
    var next: Timer?

    constructor ()
    {
      time := TimeVal(0, 0);
      usecs, periodic, client := 0, false, 0;
      prev, next := null, null;
    }

    ghost function AsEntry(): Entry<Timer>
      reads this
    {
      Entry(this, Total(time), usecs, periodic)
    }
  }

  ghost function Entries(nodes: seq<Timer>): (es: seq<Entry<Timer>>)
    reads nodes
    ensures |es| == |nodes| && forall i :: 0 <= i < |nodes| ==> es[i] == nodes[i].AsEntry()
  {
    seq(|nodes|, i requires 0 <= i < |nodes| reads nodes => nodes[i].AsEntry())
  }

  /** The node at an index, or null outside the list. */
  function NodeAt(nodes: seq<Timer>, i: int): Timer? {
    if 0 <= i < |nodes| then nodes[i] else null
  }

  /** prev and next of the nodes are each other's inverses and null at the ends. */
  ghost predicate Linked(head: Timer?, nodes: seq<Timer>)
    reads nodes
  {
    && head == NodeAt(nodes, 0)
    && (forall i {:trigger nodes[i].next} :: 0 <= i < |nodes| ==> nodes[i].next == NodeAt(nodes, i + 1))
    && (forall i {:trigger nodes[i].prev} :: 0 <= i < |nodes| ==> nodes[i].prev == NodeAt(nodes, i - 1))
  }

  /** The free list uses next only. */
  ghost predicate Chained(head: Timer?, nodes: seq<Timer>)
    reads nodes
  {
    && head == NodeAt(nodes, 0)
    && (forall i {:trigger nodes[i].next} :: 0 <= i < |nodes| ==> nodes[i].next == NodeAt(nodes, i + 1))
  }

  class TimerLists {
    var timers: Timer?
    var free_timers: Timer?
    ghost var active: seq<Timer>
    ghost var free: seq<Timer>
    // What the timer procedures saw: which timer, and when it was due.
    ghost var fired: seq<Firing<Timer>>

    ghost predicate Valid()
      reads this, active, free
    {
      && Linked(timers, active) && AllDistinct(active)
      && Chained(free_timers, free) && AllDistinct(free)
      && (forall t <- active :: t !in free)
      && (forall t <- active :: IsNormal(t.time) && 0 <= t.usecs)
      && Sorted(Entries(active))
    }

    constructor ()
      ensures Valid() && active == [] && free == [] && fired == []
    {
      timers, free_timers := null, null;
      active, free, fired := [], [], [];
    }

    /** Everything about the lists but the order of the active one. */
    ghost predicate Shaped()
      reads this, active, free
    {
      && Linked(timers, active) && AllDistinct(active)
      && Chained(free_timers, free) && AllDistinct(free)
      && (forall t <- active :: t !in free)
      && (forall t <- active :: IsNormal(t.time) && 0 <= t.usecs)
    }

    /** The assignments that put t between two neighbours, or at an end. */
    method Assign(t: Timer, t2prev: Timer?, t2: Timer?, ghost p: nat)
      requires Linked(timers, active) && AllDistinct(active) && t !in active
      requires p <= |active| && t2prev == NodeAt(active, p - 1) && t2 == NodeAt(active, p)
      modifies this`timers, active`prev, active`next, t`prev, t`next
      ensures timers == if p == 0 then t else NodeAt(active, 0)
      ensures t.prev == NodeAt(active, p - 1) && t.next == NodeAt(active, p)
      ensures forall k {:trigger active[k].next} :: 0 <= k < |active| ==>
                             active[k].next == (if k == p - 1 then t else NodeAt(active, k + 1))
      ensures forall k {:trigger active[k].prev} :: 0 <= k < |active| ==>
                             active[k].prev == (if k == p then t else NodeAt(active, k - 1))
    {
      if t2prev == null {
        timers := t;
      } else {
        t2prev.next := t;
      }
      t.prev := t2prev;
      t.next := t2;
      if t2 != null {
        t2.prev := t;
      }
    }

    method Link(t: Timer, t2prev: Timer?, t2: Timer?, ghost p: nat)
      requires Shaped() && t !in active && t !in free && IsNormal(t.time) && 0 <= t.usecs
      requires p <= |active| && t2prev == NodeAt(active, p - 1) && t2 == NodeAt(active, p)
      modifies this`timers, this`active, active`prev, active`next, t`prev, t`next
      ensures Shaped() && active == Inserted(old(active), t, p)
      ensures forall n :: n in active <==> n in old(active) || n == t
    {
      hide Linked, AllDistinct, Inserted;
      assert forall i :: 0 <= i < |free| ==> free[i] in free && free[i] !in active;
      Assign(t, t2prev, t2, p);
      LinkedInserted(active, t, p, timers);
      InsertedDistinct(active, t, p);
      active := Inserted(active, t, p);
    }

    /** list_add: t goes behind the timers due when it is or earlier. */
    method ListAdd(t: Timer)
      requires Valid() && t !in active && t !in free && IsNormal(t.time) && 0 <= t.usecs
      modifies this`timers, this`active, active`prev, active`next, t`prev, t`next
      ensures Valid()
      ensures Entries(active) == Insert(old(Entries(active)), t.AsEntry())
      ensures active == Inserted(old(active), t, Place(old(Entries(active)), Total(t.time)))
      ensures forall n :: n in active <==> n in old(active) || n == t
    {
      hide Linked, Chained, AllDistinct, Sorted, Inserted, Place;
      ghost var nodes, es := active, Entries(active);
      var t2prev, t2, p := FindPlace(t);
      Link(t, t2prev, t2, p);
      assert Entries(nodes) == es;
      EntriesInserted(nodes, t, p);
      InsertSorted(es, t.AsEntry());
    }

    /** The neighbours of the new timer: at the head, or where the walk along the list stops. */
    method FindPlace(t: Timer) returns (t2prev: Timer?, t2: Timer?, ghost p: nat)
      requires Valid() && IsNormal(t.time)
      ensures p == Place(Entries(active), Total(t.time)) <= |active|
      ensures t2prev == NodeAt(active, p - 1) && t2 == NodeAt(active, p)
    {
      hide AllDistinct, Sorted;
      if timers == null || Earlier(t.time, timers.time) {
        t2prev, t2, p := null, timers, 0;
        assert timers != null ==> timers in active;
      } else {
        t2prev, t2, p := Walk(t);
      }
      PlaceIs(Entries(active), Total(t.time), p);
    }

    /** The loop that finds the insertion point. */
    method Walk(t: Timer) returns (t2prev: Timer, t2: Timer?, ghost p: nat)
      requires Valid() && IsNormal(t.time) && timers != null && !Earlier(t.time, timers.time)
      ensures 0 < p <= |active| && t2prev == NodeAt(active, p - 1) && t2 == NodeAt(active, p)
      ensures forall i :: 0 <= i < p ==> Entries(active)[i].due <= Total(t.time)
      ensures p < |active| ==> Total(t.time) < Entries(active)[p].due
    {
      t2prev, t2, p := timers, timers.next, 1;
      while t2 != null && !Earlier(t.time, t2.time)
        invariant 0 < p <= |active| && t2prev == NodeAt(active, p - 1) && t2 == NodeAt(active, p)
        invariant forall i :: 0 <= i < p ==> Entries(active)[i].due <= Total(t.time)
        decreases |active| - p
      {
        t2prev, t2, p := t2, t2.next, p + 1;
      }
    }

    /** list_remove: the neighbours of t are linked past it. */
    method ListRemove(t: Timer, ghost p: nat)
      requires Shaped() && p < |active| && active[p] == t
      modifies this`timers, this`active, active`prev, active`next
      ensures Shaped() && active == Removed(old(active), p)
      ensures forall n :: n in active <==> n in old(active) && n != t
      ensures Entries(active) == Without(old(Entries(active)), p)
    {
      hide Removed;
      ghost var nodes, es := active, Entries(active);
      assert forall i :: 0 <= i < |free| ==> free[i] in free && free[i] !in active;
      Unassign(t, p);
      LinkedRemoved(nodes, p, timers);
      RemovedDistinct(nodes, p);
      active := Removed(nodes, p);
      assert Entries(nodes) == es;
      EntriesRemoved(nodes, p);
    }

    method Unassign(t: Timer, ghost p: nat)
      requires Linked(timers, active) && AllDistinct(active) && p < |active| && active[p] == t
      modifies this`timers, active`prev, active`next
      ensures timers == NodeAt(active, if p == 0 then 1 else 0)
      ensures forall k {:trigger active[k].next} :: 0 <= k < |active| ==>
                             active[k].next == NodeAt(active, if k == p - 1 then p + 1 else k + 1)
      ensures forall k {:trigger active[k].prev} :: 0 <= k < |active| ==>
                             active[k].prev == NodeAt(active, if k == p + 1 then p - 1 else k - 1)
    {
      if t.prev == null {
        timers := t.next;
      } else {
        t.prev.next := t.next;
      }
      if t.next != null {
        t.next.prev := t.prev;
      }
    }

    /** list_resort, after the time of t has changed. */
    method ListResort(t: Timer, ghost p: nat)
      requires Shaped() && p < |active| && active[p] == t
      requires Sorted(Without(Entries(active), p))
      modifies this`timers, this`active, active`prev, active`next
      ensures Valid()
      ensures Entries(active) == Insert(Without(old(Entries(active)), p), t.AsEntry())
      ensures forall n :: n in active <==> n in old(active)
    {
      hide Linked, Chained, AllDistinct, Sorted, Insert, Without, Inserted, Removed, Entries;
      ghost var before := active;
      assert t in before;
      ListRemove(t, p);
      assert forall i :: 0 <= i < |active| ==> active[i] in before;
      ListAdd(t);
    }

    /** tmr_cancel: from the active list to the head of the free list. */
    method TmrCancel(t: Timer, ghost p: nat)
      requires Valid() && p < |active| && active[p] == t
      modifies this`timers, this`free_timers, this`active, this`free, active`prev, active`next
      ensures Valid()
      ensures Entries(active) == Without(old(Entries(active)), p) && active == Removed(old(active), p)
      ensures free == [t] + old(free)
    {
      hide Linked, AllDistinct, Sorted, Without, Removed, Entries;
      WithoutSorted(Entries(active), p);
      ListRemove(t, p);
      t.next := free_timers;
      free_timers := t;
      t.prev := null;
      ChainedCons(t, free);
      free := [t] + free;
    }

    /** tmr_create: a free timer is used again if there is one. */
    method TmrCreate(now: TimeVal, client: int, usecs: int, periodic: bool) returns (t: Timer)
      requires Valid() && IsNormal(now) && 0 <= usecs
      modifies this`timers, this`free_timers, this`active, this`free, active`prev, active`next, free
      ensures Valid()
      ensures t.client == client
      ensures Entries(active) == Insert(old(Entries(active)), Entry(t, Total(now) + usecs, usecs, periodic))
      ensures if old(free) == [] then fresh(t) && free == [] else t == old(free)[0] && free == old(free)[1..]
      ensures forall n :: n in active <==> n in old(active) || n == t
    {
      hide Linked, AllDistinct, Sorted, Insert, Inserted, Entries;
      t := TakeTimer();
      Configure(t, now, client, usecs, periodic);
      ListAdd(t);
    }

    method Configure(t: Timer, now: TimeVal, client: int, usecs: int, periodic: bool)
      requires Valid() && t !in active && t !in free && IsNormal(now) && 0 <= usecs
      modifies t`client, t`usecs, t`periodic, t`time
      ensures Valid() && Entries(active) == old(Entries(active))
      ensures t.client == client && IsNormal(t.time)
      ensures t.AsEntry() == Entry(t, Total(now) + usecs, usecs, periodic)
    {
      assert forall i :: 0 <= i < |free| ==> free[i] in free && free[i] != t;
      assert forall i :: 0 <= i < |active| ==> active[i] in active && active[i] != t;
      t.client := client;
      t.usecs := usecs;
      t.periodic := periodic;
      t.time := now;
      AddUsecsExact(now, usecs);
      t.time := AddUsecs(t.time, usecs);
      assert Entries(active) == old(Entries(active));
    }

    method TakeTimer() returns (t: Timer)
      requires Valid()
      modifies this`free_timers, this`free
      ensures Valid() && t !in free && t !in active
      ensures if old(free) == [] then fresh(t) && free == [] else t == old(free)[0] && free == old(free)[1..]
    {
      if free_timers != null {
        t := free_timers;
        free_timers := t.next;
        ghost var nodes := free;
        free := free[1..];
        assert forall k :: 0 <= k < |free| ==> free[k] == nodes[k + 1];
        assert nodes == [t] + free;
      } else {
        t := new Timer();
      }
    }

    /** tmr_timeout: how long until the earliest of all timers is due; None without timers. */
    method TmrTimeout(now: TimeVal) returns (r: Option<TimeVal>)
      requires Valid() && IsNormal(now)
      ensures r.None? <==> active == []
      ensures r.Some? ==>
                && IsNormal(r.value)
                && 0 <= Total(r.value)
                && (forall t <- active :: Total(r.value) == 0 || Total(now) + Total(r.value) <= Total(t.time))
                && (exists t <- active ::
                      || Total(t.time) == Total(now) + Total(r.value)
                      || (Total(t.time) < Total(now) && Total(r.value) == 0))
    {
      if timers == null {
        return None;
      }
      var usecs := (timers.time.sec - now.sec) * MILLION + (timers.time.usec - now.usec);
      if usecs <= 0 {
        usecs := 0;
      }
      r := Some(TimeVal(Quotient(usecs, MILLION), Remainder(usecs, MILLION)));
      FirstIsEarliest();
      assert timers in active;
    }

    lemma FirstIsEarliest()
      requires Valid() && active != []
      ensures forall t <- active :: Total(active[0].time) <= Total(t.time)
    {
      forall t | t in active ensures Total(active[0].time) <= Total(t.time) {
        var i :| 0 <= i < |active| && active[i] == t;
        assert Entries(active)[0].due <= Entries(active)[i].due;
      }
    }

    /** tmr_reset: due again a period from now. */
    method TmrReset(now: TimeVal, t: Timer, ghost p: nat)
      requires Valid() && IsNormal(now) && p < |active| && active[p] == t
      modifies this`timers, this`active, active`prev, active`next, t`time
      ensures Valid()
      ensures Entries(active) ==
              Insert(Without(old(Entries(active)), p), old(t.AsEntry()).(due := Total(now) + t.usecs))
      ensures forall n :: n in active <==> n in old(active)
    {
      hide Linked, Chained, AllDistinct, Sorted, Insert, Without, Entries;
      assert t in active;
      AddUsecsExact(now, t.usecs);
      Retime(t, p, AddUsecs(now, t.usecs));
      ListResort(t, p);
    }

    /** Changing the time of one timer leaves the others in order. */
    method Retime(t: Timer, ghost p: nat, time: TimeVal)
      requires Valid() && IsNormal(time) && p < |active| && active[p] == t
      modifies t`time
      ensures Shaped() && t.time == time
      ensures Without(Entries(active), p) == Without(old(Entries(active)), p) && Sorted(Without(Entries(active), p))
    {
      hide Sorted;
      WithoutSorted(Entries(active), p);
      ghost var rest := Without(Entries(active), p);
      t.time := time;
      assert Without(Entries(active), p) == rest;
    }

    /** The timer procedure: it notes the firing and leaves the lists alone. */
    method Call(t: Timer)
      modifies this`fired
      ensures fired == old(fired) + [Firing(t, Total(t.time))]
    {
      fired := fired + [Firing(t, Total(t.time))];
    }

    /** What becomes of a timer that has fired. */
    method Reschedule(t: Timer, ghost k: nat)
      requires Valid() && k < |active| && active[k] == t
      modifies this`timers, this`free_timers, this`active, this`free, active
      ensures Valid() && Entries(active) == Turn(old(Entries(active)), k).0
      ensures forall n <- active :: n in old(active)
      ensures free == if old(t.periodic) then old(free) else [t] + old(free)
    {
      hide Linked, Chained, AllDistinct, Sorted, Insert, Without, Turn, Entries;
      ghost var es := Entries(active);
      assert t in active;
      if t.periodic {
        AddUsecsExact(t.time, t.usecs);
        Retime(t, k, AddUsecs(t.time, t.usecs));
        ListResort(t, k);
      } else {
        TmrCancel(t, k);
      }
      TurnIs(es, k);
    }

    /** One turn of the run loop. */
    method RunOne(t: Timer, next: Timer?, now: TimeVal, ghost k: nat)
      requires Valid() && k < |active| && active[k] == t && next == NodeAt(active, k + 1)
      modifies this, active
      ensures Valid()
      ensures var (es', k') := Turn(old(Entries(active)), k);
              Entries(active) == es' && next == NodeAt(active, k')
      ensures forall n <- active :: n in old(active)
      ensures fired == old(fired) + [Firing(t, old(Total(t.time)))]
      ensures free == if old(t.periodic) then old(free) else [t] + old(free)
    {
      hide Linked, Chained, AllDistinct, Sorted, Insert, Without, Turn, Entries;
      ghost var es := Entries(active);
      Call(t);
      assert Entries(active) == es;
      Reschedule(t, k);
      NextIsNext(es, k);
    }

    /** What the theorems on runs say of these lists: every active timer that is due fires, and each is treated as it
        should be. */
    lemma RunOfListIsFair(now: TimeVal, t: Timer)
      requires Valid() && Runnable(Entries(active)) && t in active
      ensures WellOrdered(Entries(active))
      ensures var r := RunFrom(Entries(active), 0, Total(now));
              && Treated(t.AsEntry(), Total(now), r, Count(r.fired, t))
              && (Total(t.time) <= Total(now) ==> 0 < Count(r.fired, t))
    {
      hide RunFrom, Count, Treated;
      var es, e := Entries(active), t.AsEntry();
      forall i, j | 0 <= i < j < |es| ensures es[i].timer != es[j].timer {
        assert es[i].timer == active[i] && es[j].timer == active[j];
      }
      var i :| 0 <= i < |active| && active[i] == t;
      assert es[i] == e && es[0..] == es;
      RunTreats(es, 0, Total(now), e);
    }

    /** tmr_run: the loop over the list, with the next timer saved before the current one is moved. */
    method TmrRun(now: TimeVal)
      requires Valid() && IsNormal(now) && Runnable(Entries(active))
      modifies this, active
      ensures Valid()
      ensures var r := RunFrom(old(Entries(active)), 0, Total(now));
              && Entries(active) == r.active
              && fired == old(fired) + r.fired
              && free == Stacked(r.freed, old(free))
    {
      hide Linked, Chained, AllDistinct, Sorted, Turn, Entries, RunFrom, Runnable, Pending, Stacked, Continued;
      ghost var start, firedBefore := free, fired;
      ghost var whole := RunFrom(Entries(active), 0, Total(now));
      ghost var log: seq<Firing<Timer>>, freed: seq<Timer>, k := [], [], 0;
      StackedNone(free);
      ContinuedNone(whole);
      HeadIsFirst();
      var t := timers;
      while t != null
        invariant Valid() && Runnable(Entries(active)) && 0 <= k <= |active| && t == NodeAt(active, k)
        invariant forall n <- active :: n in old(active)
        invariant fired == firedBefore + log && free == Stacked(freed, start)
        invariant whole == Continued(log, freed, RunFrom(Entries(active), k, Total(now)))
        decreases Pending(Entries(active), Total(now)), t != null
      {
        ghost var es := Entries(active);
        var current: Timer := t;
        assert current in active;
        if Earlier(now, current.time) {
          break;
        }
        var next := current.next;
        NextNode(k);
        TurnRunnable(es, k, Total(now));
        assert es[k] == current.AsEntry();
        StackedMore(freed, current, start);
        ContinuedMore(log, freed, es, k, Total(now));
        assert forall i :: 0 <= i < |active| ==> active[i] in old(active);
        RunOne(current, next, now, k);
        log := log + [Firing(current, es[k].due)];
        freed := if es[k].periodic then freed else freed + [current];
        k := Turn(es, k).1;
        t := next;
      }
      RunEnds(Entries(active), k, Total(now));
      ContinuedEnd(log, freed, Entries(active));
    }

    // ---- a run whose procedures reset other timers ----

    /** A timer procedure, with the timers that it resets one after the other. */
    method CallResetting(t: Timer, ts: seq<Timer>, now: TimeVal)
      requires Valid() && IsNormal(now) && WellOrdered(Entries(active))
      requires (forall u <- ts :: u in active) && forall e <- Entries(active) :: e.timer in ts ==> e.periodic
      modifies this`timers, this`active, this`fired, active`prev, active`next, active`time
      ensures Valid() && WellOrdered(Entries(active))
      ensures Entries(active) == ResetAll(old(Entries(active)), ts, Total(now))
      ensures forall n :: n in active <==> n in old(active)
      ensures fired == old(fired) + [Firing(t, old(Total(t.time)))]
    {
      hide Linked, Chained, AllDistinct, Sorted, Entries, Reset, Insert, Without, WellOrdered;
      ghost var es := Entries(active);
      Call(t);
      assert Entries(active) == es;
      var i: nat := 0;
      assert ts[0..] == ts;
      while i < |ts|
        invariant Valid() && i <= |ts| && WellOrdered(Entries(active))
        invariant forall n :: n in active <==> n in old(active)
        invariant ResetAll(es, ts, Total(now)) == ResetAll(Entries(active), ts[i..], Total(now))
        invariant fired == old(fired) + [Firing(t, old(Total(t.time)))]
      {
        assert ts[i] in ts && ts[i..][1..] == ts[i + 1..] && ts[i..][0] == ts[i];
        ghost var p :| 0 <= p < |active| && active[p] == ts[i];
        ResetIs(p, Total(now));
        assert forall k :: 0 <= k < |active| ==> active[k] in old(active);
        TmrReset(now, ts[i], p);
        i := i + 1;
      }
      assert ts[i..] == [];
    }

    lemma ResetIs(p: nat, now: int)
      requires Valid() && WellOrdered(Entries(active)) && p < |active|
      ensures Reset(Entries(active), active[p], now) ==
              Insert(Without(Entries(active), p), active[p].AsEntry().(due := now + active[p].usecs))
      ensures WellOrdered(Reset(Entries(active), active[p], now))
    {
      hide Linked, Chained, AllDistinct, Sorted, Reset, Insert, Without;
      ResetAt(Entries(active), p, now);
      ResetKeeps(Entries(active), active[p], now);
    }

    /** One turn of the run loop, in which the procedure resets ts. */
    method RunOneResetting(t: Timer, next: Timer?, ts: seq<Timer>, now: TimeVal, ghost k: nat)
      requires Valid() && IsNormal(now) && WellOrdered(Entries(active))
      requires k < |active| && active[k] == t && next == NodeAt(active, k + 1)
      requires Resettable(Entries(active), t, ts) && forall u <- ts :: u in active
      modifies this, active
      ensures Valid()
      ensures var (es', k') := ResettingTurn(old(Entries(active)), k, ts, Total(now));
              Entries(active) == es' && next == NodeAt(active, k')
      ensures forall n <- active :: n in old(active)
      ensures fired == old(fired) + [Firing(t, old(Total(t.time)))]
      ensures free == if old(t.periodic) then old(free) else [t] + old(free)
    {
      hide Linked, Chained, AllDistinct, Sorted, Insert, Without, Turn, Entries, WellOrdered, ResetAll, ResettingTurn;
      ghost var es := Entries(active);
      assert es[k] == t.AsEntry() && es[k].timer == t;
      CallResetting(t, ts, now);
      ghost var p := TurnIsTurn(es, k, ts, Total(now));
      assert active[p].AsEntry() == es[k];
      assert forall i :: 0 <= i < |active| ==> active[i] in old(active);
      Reschedule(t, p);
      NextIsSaved(es, k, ts, Total(now), active, next);
    }

    /** tmr_run, with what each procedure resets. */
    method TmrRunResetting(now: TimeVal, resets: map<Timer, seq<Timer>>, ghost periodic: set<Timer>)
      requires Valid() && IsNormal(now) && WellOrdered(Entries(active))
      requires PeriodicIn(Entries(active), periodic) && ResetsWithin(resets, periodic)
      requires forall u <- periodic :: u in active
      modifies this, active
      ensures Valid()
      ensures var r := ResettingRun(old(Entries(active)), 0, Total(now), resets, periodic);
              && Entries(active) == r.active
              && fired == old(fired) + r.fired
              && free == Stacked(r.freed, old(free))
    {
      hide Linked, Chained, AllDistinct, Sorted, Entries, WellOrdered, PeriodicIn, ResetsWithin, Resettable,
           ResettingTurn, ResettingRun, Pending, Stacked, Continued;
      ghost var start, firedBefore := free, fired;
      ghost var whole := ResettingRun(Entries(active), 0, Total(now), resets, periodic);
      ghost var log: seq<Firing<Timer>>, freed: seq<Timer>, k := [], [], 0;
      StackedNone(free);
      ContinuedNone(whole);
      HeadIsFirst();
      var t := timers;
      while t != null
        invariant Valid() && WellOrdered(Entries(active)) && PeriodicIn(Entries(active), periodic)
        invariant 0 <= k <= |active| && t == NodeAt(active, k) && forall u <- periodic :: u in active
        invariant forall n <- active :: n in old(active)
        invariant fired == firedBefore + log && free == Stacked(freed, start)
        invariant whole == Continued(log, freed, ResettingRun(Entries(active), k, Total(now), resets, periodic))
        decreases Pending(Entries(active), Total(now)), t != null
      {
        ghost var es := Entries(active);
        var current: Timer := t;
        assert current in active;
        if Earlier(now, current.time) {
          break;
        }
        var next := current.next;
        NextNode(k);
        assert es[k] == current.AsEntry();
        var ts := if current in resets then resets[current] else [];
        NodesReset(es, current, ts, resets, periodic);
        TurnKeeps(es, k, ts, Total(now));
        PeriodicAfterTurn(es, k, ts, Total(now), periodic);
        PeriodicStays(es, k, ts, Total(now), periodic, active);
        StackedMore(freed, current, start);
        ContinuedResetting(log, freed, es, k, Total(now), resets, periodic);
        assert forall i :: 0 <= i < |active| ==> active[i] in old(active);
        RunOneResetting(current, next, ts, now, k);
        AllListed(active, periodic);
        log := log + [Firing(current, es[k].due)];
        freed := if es[k].periodic then freed else freed + [current];
        k := ResettingTurn(es, k, ts, Total(now)).1;
        t := next;
      }
      ResettingRunEnds(Entries(active), k, Total(now), resets, periodic);
      ContinuedEnd(log, freed, Entries(active));
    }

    lemma HeadIsFirst()
      requires Linked(timers, active)
      ensures timers == NodeAt(active, 0)
    {
    }

    lemma NextNode(k: nat)
      requires Linked(timers, active) && k < |active|
      ensures active[k].next == NodeAt(active, k + 1)
    {
    }

    /** tmr_destroy: every active timer is cancelled, and then every free one is given back. */
    method TmrDestroy()
      requires Valid()
      modifies this, active
      ensures Valid() && active == [] && free == []
    {
      while timers != null
        invariant Valid() && forall n <- active :: n in old(active)
        decreases |active|
      {
        HeadIsFirst();
        var rest := Removed(active, 0);
        TmrCancel(timers, 0);
      }
      HeadIsFirst();
      TmrCleanup();
    }

    method TmrCleanup()
      requires Valid()
      modifies this`free_timers, this`free
      ensures Valid() && free == []
    {
      while free_timers != null
        invariant Valid()
        decreases |free|
      {
        ghost var nodes := free;
        free_timers := free_timers.next;
        free := free[1..];
        assert forall k :: 0 <= k < |free| ==> free[k] == nodes[k + 1];
        assert nodes == [nodes[0]] + free;
      }
    }
  }

  /** The node saved as the next one is where the cursor of the turn is. */
  lemma NextIsSaved(es: seq<Entry<Timer>>, k: nat, ts: seq<Timer>, now: int, nodes: seq<Timer>, next: Timer?)
    requires WellOrdered(es) && k < |es| && Resettable(es, es[k].timer, ts)
    requires next == if k + 1 < |es| then es[k + 1].timer else null
    requires Entries(nodes) == ResettingTurn(es, k, ts, now).0
    ensures next == NodeAt(nodes, ResettingTurn(es, k, ts, now).1)
  {
    hide WellOrdered, Resettable, Entries;
    if k + 1 < |es| {
      hide ResettingTurn;
      NextStays(es, k, ts, now);
      assert Entries(nodes)[ResettingTurn(es, k, ts, now).1].timer == next;
    }
  }

  lemma NodesReset(es: seq<Entry<Timer>>, t: Timer, ts: seq<Timer>, resets: map<Timer, seq<Timer>>,
                   periodic: set<Timer>)
    requires PeriodicIn(es, periodic) && ResetsWithin(resets, periodic)
    requires ts == if t in resets then resets[t] else []
    ensures ts == ResetBy(resets, t) && Resettable(es, t, ts) && forall u <- ts :: u in periodic
  {
    ResettableIn(es, t, resets, periodic);
  }

  /** Periodic timers stay in the list. */
  lemma PeriodicStays(es: seq<Entry<Timer>>, k: nat, ts: seq<Timer>, now: int, periodic: set<Timer>,
                      nodes: seq<Timer>)
    requires es == Entries(nodes) && WellOrdered(es) && k < |es| && es[k].due <= now && Resettable(es, es[k].timer, ts)
    requires PeriodicIn(es, periodic) && forall u <- periodic :: u in nodes
    ensures periodic <= Timers(ResettingTurn(es, k, ts, now).0)
  {
    hide WellOrdered, Resettable, ResettingTurn;
    TurnKeeps(es, k, ts, now);
    assert es[k] in es;
    forall u | u in periodic ensures u in Timers(ResettingTurn(es, k, ts, now).0) {
      var i :| 0 <= i < |nodes| && nodes[i] == u;
      assert es[i] in es && es[i].timer == u;
    }
  }

  lemma AllListed(nodes: seq<Timer>, periodic: set<Timer>)
    requires periodic <= Timers(Entries(nodes))
    ensures forall u <- periodic :: u in nodes
  {
  }

  lemma ChainedCons(t: Timer, nodes: seq<Timer>)
    requires t !in nodes && Chained(t.next, nodes) && AllDistinct(nodes)
    ensures Chained(t, [t] + nodes) && AllDistinct([t] + nodes)
  {
  }

  lemma LinkedRemoved(nodes: seq<Timer>, p: nat, head: Timer?)
    requires p < |nodes|
    requires head == NodeAt(nodes, if p == 0 then 1 else 0)
    requires forall k {:trigger nodes[k].next} :: 0 <= k < |nodes| ==>
                           nodes[k].next == NodeAt(nodes, if k == p - 1 then p + 1 else k + 1)
    requires forall k {:trigger nodes[k].prev} :: 0 <= k < |nodes| ==>
                           nodes[k].prev == NodeAt(nodes, if k == p + 1 then p - 1 else k - 1)
    ensures Linked(head, Removed(nodes, p))
  {
    hide Removed;
    var after := Removed(nodes, p);
    RemovedAt(nodes, p, 0);
    forall i | 0 <= i < |after|
      ensures after[i].next == NodeAt(after, i + 1)
      ensures after[i].prev == NodeAt(after, i - 1)
    {
      RemovedAt(nodes, p, i);
      RemovedAt(nodes, p, i - 1);
      RemovedAt(nodes, p, i + 1);
    }
  }

  lemma EntriesRemoved(nodes: seq<Timer>, p: nat)
    requires p < |nodes|
    ensures Entries(Removed(nodes, p)) == Without(Entries(nodes), p)
  {
  }

  lemma EntriesInserted(nodes: seq<Timer>, t: Timer, p: nat)
    requires p <= |nodes|
    ensures Entries(Inserted(nodes, t, p)) == Entries(nodes)[..p] + [t.AsEntry()] + Entries(nodes)[p..]
  {
  }

  /** The list after the assignments. */
  lemma LinkedInserted(nodes: seq<Timer>, t: Timer, p: nat, head: Timer?)
    requires p <= |nodes|
    requires head == if p == 0 then t else NodeAt(nodes, 0)
    requires t.prev == NodeAt(nodes, p - 1) && t.next == NodeAt(nodes, p)
    requires forall k {:trigger nodes[k].next} :: 0 <= k < |nodes| ==>
                           nodes[k].next == (if k == p - 1 then t else NodeAt(nodes, k + 1))
    requires forall k {:trigger nodes[k].prev} :: 0 <= k < |nodes| ==>
                           nodes[k].prev == (if k == p then t else NodeAt(nodes, k - 1))
    ensures Linked(head, Inserted(nodes, t, p))
  {
    hide Inserted;
    var after := Inserted(nodes, t, p);
    InsertedAt(nodes, t, p, 0);
    forall i | 0 <= i < |after|
      ensures after[i].next == NodeAt(after, i + 1)
      ensures after[i].prev == NodeAt(after, i - 1)
    {
      InsertedAt(nodes, t, p, i);
      InsertedAt(nodes, t, p, i - 1);
      InsertedAt(nodes, t, p, i + 1);
    }
  }
}
