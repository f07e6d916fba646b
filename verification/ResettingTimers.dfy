/**
 Runs in which a timer procedure resets other timers, as the one at the end of the omitted period does.  The next timer
 is saved before the procedure is called, so the loop goes on from wherever that timer has been moved.
 */
module ResettingTimers {
  import opened TimerSpec

  /** The place of a timer, or the end of the list. */
  ghost function PlaceOf<T>(es: seq<Entry<T>>, t: T): (p: nat)
    ensures p <= |es|
    ensures p < |es| ==> es[p].timer == t
    ensures p == |es| ==> t !in Timers(es)
  {
    if es == [] || es[0].timer == t then 0 else 1 + PlaceOf(es[1..], t)
  }

  /** tmr_reset */
  ghost function Reset<T>(es: seq<Entry<T>>, t: T, now: int): seq<Entry<T>> {
    var p := PlaceOf(es, t);
    if p == |es| then es else Insert(Without(es, p), es[p].(due := now + es[p].usecs))
  }

  ghost function ResetAll<T>(es: seq<Entry<T>>, ts: seq<T>, now: int): seq<Entry<T>>
    decreases |ts|
  {
    if ts == [] then es else ResetAll(Reset(es, ts[0], now), ts[1..], now)
  }

  /** One turn, with the timers that the procedure of the one at the cursor resets. */
  ghost function ResettingTurn<T>(es: seq<Entry<T>>, k: nat, ts: seq<T>, now: int): (r: (seq<Entry<T>>, nat))
    requires k < |es|
    ensures r.1 <= |r.0|
  {
    var es1 := ResetAll(es, ts, now);
    var p := PlaceOf(es1, es[k].timer);
    var es2 := if p == |es1| then es1
               else if es1[p].periodic then Insert(Without(es1, p), Later(es1[p]))
               else Without(es1, p);
    (es2, if k + 1 < |es| then PlaceOf(es2, es[k + 1].timer) else |es2|)
  }

  /** What a procedure resets: periodic timers other than its own. */
  ghost predicate Resettable<T>(es: seq<Entry<T>>, t: T, ts: seq<T>) {
    t !in ts && forall e <- es :: e.timer in ts ==> e.periodic
  }

  // ---- what a reset keeps ----

  lemma PlaceOfIs<T>(es: seq<Entry<T>>, p: nat)
    requires Distinct(es) && p < |es|
    ensures PlaceOf(es, es[p].timer) == p
  {
    var q := PlaceOf(es, es[p].timer);
    assert es[p] in es;
  }

  /** A timer other than the one reset keeps its entry; the one reset is due a period from now. */
  lemma ResetMembers<T>(es: seq<Entry<T>>, t: T, now: int, e: Entry<T>)
    requires WellOrdered(es)
    ensures e in Reset(es, t, now) <==>
              if e.timer == t then exists x :: x in es && x.timer == t && e == x.(due := now + x.usecs) else e in es
  {
    var p := PlaceOf(es, t);
    if p == |es| {
      NotIn(es, t);
    } else {
      var moved, rest := es[p].(due := now + es[p].usecs), Without(es, p);
      WithoutMembers(es, p, e);
      InsertMembers(rest, moved, e);
      assert es[p] in es;
      OnlyOne(es, p);
    }
  }

  lemma NotIn<T>(es: seq<Entry<T>>, t: T)
    requires t !in Timers(es)
    ensures forall e <- es :: e.timer != t
  {
  }

  lemma OnlyOne<T>(es: seq<Entry<T>>, p: nat)
    requires Distinct(es) && p < |es|
    ensures forall e <- es :: e.timer == es[p].timer ==> e == es[p]
  {
  }

  lemma WithoutMembers<T>(es: seq<Entry<T>>, p: nat, e: Entry<T>)
    requires Distinct(es) && p < |es|
    ensures e in Without(es, p) <==> e in es && e != es[p]
  {
    assert es == es[..p] + [es[p]] + es[p + 1..];
    if e in es && e != es[p] {
      var i :| 0 <= i < |es| && es[i] == e;
      assert Without(es, p)[if i < p then i else i - 1] == e;
    }
    if e in Without(es, p) {
      var i :| 0 <= i < |es| - 1 && Without(es, p)[i] == e;
      assert es[if i < p then i else i + 1] == e;
    }
  }

  lemma InsertMembers<T>(es: seq<Entry<T>>, x: Entry<T>, e: Entry<T>)
    ensures e in Insert(es, x) <==> e in es || e == x
  {
    hide Place;
    var p := Place(es, x.due);
    assert es == es[..p] + es[p..];
  }

  lemma ResetKeeps<T>(es: seq<Entry<T>>, t: T, now: int)
    requires WellOrdered(es)
    ensures WellOrdered(Reset(es, t, now)) && Timers(Reset(es, t, now)) == Timers(es)
    ensures (forall e <- es :: e.timer == t ==> e.periodic) ==> Pending(Reset(es, t, now), now) <= Pending(es, now)
  {
    hide Insert, Timers, Sorted, Distinct, Runnable, Pending, PlaceOf;
    var p := PlaceOf(es, t);
    if p < |es| {
      var moved, rest := es[p].(due := now + es[p].usecs), Without(es, p);
      WithoutSorted(es, p);
      WithoutDistinct(es, p);
      InsertSorted(rest, moved);
      InsertDistinct(rest, moved);
      PendingWithout(es, p, now);
      PendingInsert(rest, moved, now);
      StillRunnable(es, p, moved);
    }
  }

  lemma StillRunnable<T>(es: seq<Entry<T>>, p: nat, moved: Entry<T>)
    requires Runnable(es) && p < |es| && moved == es[p].(due := moved.due)
    ensures Runnable(Insert(Without(es, p), moved)) && Runnable(Without(es, p))
    ensures es[p].periodic ==> 0 < es[p].usecs
  {
    assert es[p] in es;
    forall e | e in Without(es, p) ensures e in es {
    }
    forall e | e in Insert(Without(es, p), moved) ensures 0 <= e.usecs && (e.periodic ==> 0 < e.usecs) {
      InsertMembers(Without(es, p), moved, e);
    }
  }

  lemma {:induction false} ResetAllKeeps<T>(es: seq<Entry<T>>, ts: seq<T>, now: int)
    requires WellOrdered(es) && forall e <- es :: e.timer in ts ==> e.periodic
    ensures WellOrdered(ResetAll(es, ts, now)) && Timers(ResetAll(es, ts, now)) == Timers(es)
    ensures Pending(ResetAll(es, ts, now), now) <= Pending(es, now)
    decreases |ts|
  {
    hide Timers, Sorted, Distinct, Runnable, Pending, Reset;
    if ts != [] {
      ResetKeeps(es, ts[0], now);
      forall e | e in Reset(es, ts[0], now) && e.timer in ts[1..] ensures e.periodic {
        ResetMembers(es, ts[0], now, e);
      }
      ResetAllKeeps(Reset(es, ts[0], now), ts[1..], now);
    }
  }

  /** Timers that are not reset keep their entries; those that are, are no longer due. */
  lemma {:induction false} ResetAllMembers<T>(es: seq<Entry<T>>, ts: seq<T>, now: int, e: Entry<T>)
    requires WellOrdered(es) && forall e <- es :: e.timer in ts ==> e.periodic
    ensures e.timer !in ts ==> (e in ResetAll(es, ts, now) <==> e in es)
    ensures e.timer in ts && e in ResetAll(es, ts, now) ==> e.periodic && now < e.due
    decreases |ts|
  {
    hide Timers, Sorted, Distinct, Pending, Reset;
    if ts != [] {
      var es' := Reset(es, ts[0], now);
      ResetKeeps(es, ts[0], now);
      forall x | x in es' && x.timer in ts[1..] ensures x.periodic {
        ResetMembers(es, ts[0], now, x);
      }
      ResetAllMembers(es', ts[1..], now, e);
      ResetMembers(es, ts[0], now, e);
    }
  }

  // ---- one turn ----

  lemma TurnIsTurn<T>(es: seq<Entry<T>>, k: nat, ts: seq<T>, now: int) returns (p: nat)
    requires WellOrdered(es) && k < |es| && Resettable(es, es[k].timer, ts)
    ensures var es1 := ResetAll(es, ts, now);
            && WellOrdered(es1) && Timers(es1) == Timers(es) && Pending(es1, now) <= Pending(es, now)
            && p < |es1| && es1[p] == es[k] && p == PlaceOf(es1, es[k].timer)
            && ResettingTurn(es, k, ts, now).0 == Turn(es1, p).0
  {
    hide Timers, Sorted, Distinct, Runnable, Pending, ResetAll, Insert;
    assert es[k] in es;
    ResetAllKeeps(es, ts, now);
    ResetAllMembers(es, ts, now, es[k]);
    var es1 := ResetAll(es, ts, now);
    p :| 0 <= p < |es1| && es1[p] == es[k];
    PlaceOfIs(es1, p);
  }

  /** A turn keeps the list in order, loses no timer, and takes the run further. */
  lemma TurnKeeps<T>(es: seq<Entry<T>>, k: nat, ts: seq<T>, now: int)
    requires WellOrdered(es) && k < |es| && Resettable(es, es[k].timer, ts) && es[k].due <= now
    ensures var es' := ResettingTurn(es, k, ts, now).0;
            && WellOrdered(es') && Pending(es', now) < Pending(es, now)
            && Timers(es') == Timers(es) - (if es[k].periodic then {} else {es[k].timer})
  {
    hide Timers, Sorted, Distinct, Runnable, Pending, ResetAll, Turn, ResettingTurn;
    var p := TurnIsTurn(es, k, ts, now);
    var es1 := ResetAll(es, ts, now);
    TurnWellOrdered(es1, p);
    TurnRunnable(es1, p, now);
  }

  /** x stands before y. */
  ghost predicate Precedes<T>(es: seq<Entry<T>>, x: Entry<T>, y: Entry<T>) {
    exists i, j :: 0 <= i < j < |es| && es[i] == x && es[j] == y
  }

  lemma WithoutPrecedes<T>(es: seq<Entry<T>>, p: nat, x: Entry<T>, y: Entry<T>)
    requires p < |es| && Precedes(es, x, y) && es[p] != x && es[p] != y
    ensures Precedes(Without(es, p), x, y)
  {
    var i, j :| 0 <= i < j < |es| && es[i] == x && es[j] == y;
    var rest := Without(es, p);
    assert rest[if i < p then i else i - 1] == x && rest[if j < p then j else j - 1] == y;
  }

  lemma InsertPrecedes<T>(es: seq<Entry<T>>, e: Entry<T>, x: Entry<T>, y: Entry<T>)
    requires Precedes(es, x, y)
    ensures Precedes(Insert(es, e), x, y)
  {
    hide Place;
    var i, j :| 0 <= i < j < |es| && es[i] == x && es[j] == y;
    var p, longer := Place(es, e.due), Insert(es, e);
    assert longer[if i < p then i else i + 1] == x && longer[if j < p then j else j + 1] == y;
  }

  lemma ResetPrecedes<T>(es: seq<Entry<T>>, t: T, now: int, x: Entry<T>, y: Entry<T>)
    requires Precedes(es, x, y) && x.timer != t && y.timer != t
    ensures Precedes(Reset(es, t, now), x, y)
  {
    hide Insert, Without;
    var p := PlaceOf(es, t);
    if p < |es| {
      WithoutPrecedes(es, p, x, y);
      InsertPrecedes(Without(es, p), es[p].(due := now + es[p].usecs), x, y);
    }
  }

  lemma {:induction false} ResetAllPrecedes<T>(es: seq<Entry<T>>, ts: seq<T>, now: int, x: Entry<T>, y: Entry<T>)
    requires Precedes(es, x, y) && x.timer !in ts && y.timer !in ts
    ensures Precedes(ResetAll(es, ts, now), x, y)
    decreases |ts|
  {
    hide Reset, Precedes;
    if ts != [] {
      ResetPrecedes(es, ts[0], now, x, y);
      ResetAllPrecedes(Reset(es, ts[0], now), ts[1..], now, x, y);
    }
  }

  lemma TurnPrecedes<T>(es: seq<Entry<T>>, p: nat, x: Entry<T>, y: Entry<T>)
    requires p < |es| && Precedes(es, x, y) && es[p] != x && es[p] != y
    ensures Precedes(Turn(es, p).0, x, y)
  {
    hide Insert, Without, Precedes;
    WithoutPrecedes(es, p, x, y);
    if es[p].periodic {
      InsertPrecedes(Without(es, p), Later(es[p]), x, y);
    }
  }

  /** A timer that was due behind the one just run, and was not reset, is still to be run if and only if the next in the
      list was not reset: otherwise the loop goes on behind it. */
  lemma DueStaysAhead<T>(es: seq<Entry<T>>, k: nat, ts: seq<T>, now: int, j: nat)
    requires WellOrdered(es) && k < j < |es| && Resettable(es, es[k].timer, ts)
    requires es[j].due <= now && es[j].timer !in ts
    ensures var (es', k') := ResettingTurn(es, k, ts, now);
            es[j] in es' && (es[j] in es'[k'..] <==> es[k + 1].timer !in ts)
  {
    hide ResettingTurn, WellOrdered, Resettable;
    var (es', k') := ResettingTurn(es, k, ts, now);
    OtherStays(es, k, ts, now, j);
    NextStays(es, k, ts, now);
    if es[k + 1].timer in ts {
      ResetIsLater(es, k, ts, now, es'[k']);
      BehindIsLater(es', k', es[j]);
    } else {
      OtherStays(es, k, ts, now, k + 1);
      SameTimerSame(es', k', es[k + 1]);
      if j == k + 1 {
        assert es'[k'] in es'[k'..];
      } else {
        OrderStays(es, k, ts, now, j);
        BehindCursor(es', k', es[k + 1], es[j]);
      }
    }
  }

  /** A timer behind the cursor that is not reset keeps its entry. */
  lemma OtherStays<T>(es: seq<Entry<T>>, k: nat, ts: seq<T>, now: int, j: nat)
    requires WellOrdered(es) && k < j < |es| && Resettable(es, es[k].timer, ts) && es[j].timer !in ts
    ensures var es' := ResettingTurn(es, k, ts, now).0;
            es[j] in es' && Sorted(es') && Distinct(es')
  {
    hide Timers, Pending, ResetAll, Turn, ResettingTurn, Insert, PlaceOf;
    var p := TurnIsTurn(es, k, ts, now);
    var es1 := ResetAll(es, ts, now);
    assert es[j] in es && es[j] != es[k];
    ResetAllMembers(es, ts, now, es[j]);
    TurnOthers(es1, p, es[j]);
    TurnWellOrdered(es1, p);
  }

  lemma OrderStays<T>(es: seq<Entry<T>>, k: nat, ts: seq<T>, now: int, j: nat)
    requires WellOrdered(es) && k + 1 < j < |es| && Resettable(es, es[k].timer, ts)
    requires es[j].timer !in ts && es[k + 1].timer !in ts
    ensures Precedes(ResettingTurn(es, k, ts, now).0, es[k + 1], es[j])
  {
    hide Timers, Pending, ResetAll, Turn, ResettingTurn, Insert, PlaceOf;
    var p := TurnIsTurn(es, k, ts, now);
    assert Precedes(es, es[k + 1], es[j]);
    assert es[k + 1] != es[k] && es[j] != es[k];
    ResetAllPrecedes(es, ts, now, es[k + 1], es[j]);
    TurnPrecedes(ResetAll(es, ts, now), p, es[k + 1], es[j]);
  }

  lemma NextStays<T>(es: seq<Entry<T>>, k: nat, ts: seq<T>, now: int)
    requires WellOrdered(es) && k + 1 < |es| && Resettable(es, es[k].timer, ts)
    ensures var (es', k') := ResettingTurn(es, k, ts, now);
            k' < |es'| && es'[k'].timer == es[k + 1].timer
  {
    hide Sorted, Runnable, Pending, ResetAll, Turn, Without, Insert;
    var p := TurnIsTurn(es, k, ts, now);
    TurnWellOrdered(ResetAll(es, ts, now), p);
    assert es[k + 1] in es && es[k + 1].timer in Timers(es);
  }

  lemma TurnOthers<T>(es: seq<Entry<T>>, p: nat, e: Entry<T>)
    requires Distinct(es) && p < |es| && e in es && e != es[p]
    ensures e in Turn(es, p).0
  {
    hide Turn;
    WithoutMembers(es, p, e);
    TurnMembers(es, p, e);
    assert e in es[..p] || e in es[p + 1..];
  }

  /** The next timer, if it was reset, is not due where it is now. */
  lemma ResetIsLater<T>(es: seq<Entry<T>>, k: nat, ts: seq<T>, now: int, x: Entry<T>)
    requires WellOrdered(es) && k < |es| && Resettable(es, es[k].timer, ts)
    requires x in ResettingTurn(es, k, ts, now).0 && x.timer in ts
    ensures now < x.due
  {
    hide Timers, Pending, ResetAll, Turn, ResettingTurn, Insert;
    var p := TurnIsTurn(es, k, ts, now);
    var es1 := ResetAll(es, ts, now);
    TurnMembers(es1, p, x);
    assert x in es1[..p] || x in es1[p + 1..] ==> x in es1;
    ResetAllMembers(es, ts, now, x);
  }

  lemma BehindIsLater<T>(es: seq<Entry<T>>, k: nat, e: Entry<T>)
    requires Sorted(es) && k < |es| && e.due < es[k].due
    ensures e !in es[k..]
  {
    forall i | k <= i < |es| ensures es[i] != e {
      assert es[k].due <= es[i].due;
    }
  }

  lemma SameTimerSame<T>(es: seq<Entry<T>>, k: nat, e: Entry<T>)
    requires Distinct(es) && k < |es| && e in es && es[k].timer == e.timer
    ensures es[k] == e
  {
  }

  lemma BehindCursor<T>(es: seq<Entry<T>>, k: nat, x: Entry<T>, y: Entry<T>)
    requires Distinct(es) && k < |es| && es[k] == x && Precedes(es, x, y)
    ensures y in es[k..]
  {
    var i, j :| 0 <= i < j < |es| && es[i] == x && es[j] == y;
    assert i == k;
    assert es[k..][j - k] == y;
  }

  // ---- whole runs ----

  /** What each timer's procedure resets; most reset nothing. */
  ghost function ResetBy<T>(resets: map<T, seq<T>>, t: T): seq<T> {
    if t in resets then resets[t] else []
  }

  /** Procedures reset timers of the set only, and not their own. */
  ghost predicate ResetsWithin<T>(resets: map<T, seq<T>>, periodic: set<T>) {
    forall t <- resets :: t !in resets[t] && forall u <- resets[t] :: u in periodic
  }

  ghost predicate PeriodicIn<T>(es: seq<Entry<T>>, periodic: set<T>) {
    forall e <- es :: e.timer in periodic ==> e.periodic
  }

  lemma ResettableIn<T>(es: seq<Entry<T>>, t: T, resets: map<T, seq<T>>, periodic: set<T>)
    requires PeriodicIn(es, periodic) && ResetsWithin(resets, periodic)
    ensures Resettable(es, t, ResetBy(resets, t))
  {
  }

  lemma {:induction false} PeriodicAfterResets<T>(es: seq<Entry<T>>, ts: seq<T>, now: int, periodic: set<T>)
    requires WellOrdered(es) && PeriodicIn(es, periodic)
    ensures PeriodicIn(ResetAll(es, ts, now), periodic)
    decreases |ts|
  {
    hide Sorted, Distinct, Runnable, Timers, Pending, Reset;
    if ts != [] {
      ResetKeeps(es, ts[0], now);
      forall e | e in Reset(es, ts[0], now) && e.timer in periodic ensures e.periodic {
        ResetMembers(es, ts[0], now, e);
      }
      PeriodicAfterResets(Reset(es, ts[0], now), ts[1..], now, periodic);
    }
  }

  lemma PeriodicAfterTurn<T>(es: seq<Entry<T>>, k: nat, ts: seq<T>, now: int, periodic: set<T>)
    requires WellOrdered(es) && k < |es| && Resettable(es, es[k].timer, ts) && PeriodicIn(es, periodic)
    ensures PeriodicIn(ResettingTurn(es, k, ts, now).0, periodic)
  {
    hide Sorted, Distinct, Runnable, Timers, Pending, ResetAll, Turn, ResettingTurn, Resettable;
    var p := TurnIsTurn(es, k, ts, now);
    var es1 := ResetAll(es, ts, now);
    PeriodicAfterResets(es, ts, now, periodic);
    forall e | e in Turn(es1, p).0 && e.timer in periodic ensures e.periodic {
      TurnMembers(es1, p, e);
      assert e in es1[..p] || e in es1[p + 1..] ==> e in es1;
    }
  }

  ghost function ResettingRun<T>(es: seq<Entry<T>>, k: nat, now: int, resets: map<T, seq<T>>, periodic: set<T>): Run<T>
    requires WellOrdered(es) && PeriodicIn(es, periodic) && ResetsWithin(resets, periodic)
    decreases Pending(es, now)
  {
    if k >= |es| || es[k].due > now then Run(es, [], [])
    else
      var ts := ResetBy(resets, es[k].timer);
      ResettableIn(es, es[k].timer, resets, periodic);
      TurnKeeps(es, k, ts, now);
      PeriodicAfterTurn(es, k, ts, now, periodic);
      var (es', k') := ResettingTurn(es, k, ts, now);
      var r := ResettingRun(es', k', now, resets, periodic);
      Run(r.active, [Firing(es[k].timer, es[k].due)] + r.fired,
          if es[k].periodic then r.freed else [es[k].timer] + r.freed)
  }

  /** Whatever the procedures reset: the list stays in order, no timer is lost, and none fires before its time. */
  lemma {:induction false} ResettingRunKeeps<T>(es: seq<Entry<T>>, k: nat, now: int, resets: map<T, seq<T>>,
                                                periodic: set<T>)
    requires WellOrdered(es) && PeriodicIn(es, periodic) && ResetsWithin(resets, periodic)
    ensures var r := ResettingRun(es, k, now, resets, periodic);
            && WellOrdered(r.active)
            && Timers(r.active) !! (set t | t in r.freed)
            && Timers(r.active) + (set t | t in r.freed) == Timers(es)
            && forall f <- r.fired :: f.due <= now
    decreases Pending(es, now)
  {
    hide Sorted, Distinct, Runnable, Timers, Pending, ResettingTurn, ResetBy, Resettable, PeriodicIn, ResetsWithin;
    if k < |es| && es[k].due <= now {
      var ts := ResetBy(resets, es[k].timer);
      ResettableIn(es, es[k].timer, resets, periodic);
      TurnKeeps(es, k, ts, now);
      PeriodicAfterTurn(es, k, ts, now, periodic);
      var (es', k') := ResettingTurn(es, k, ts, now);
      ResettingRunKeeps(es', k', now, resets, periodic);
      TimerIn(es, k);
      var r := ResettingRun(es', k', now, resets, periodic);
      assert (set t | t in [es[k].timer] + r.freed) == {es[k].timer} + (set t | t in r.freed);
    }
  }

  /** Before the run comes to the timer of e, a procedure resets the timer that was saved as the next. */
  ghost predicate CutBefore<T>(es: seq<Entry<T>>, k: nat, now: int, resets: map<T, seq<T>>, periodic: set<T>,
                               e: Entry<T>)
    requires WellOrdered(es) && PeriodicIn(es, periodic) && ResetsWithin(resets, periodic)
    decreases Pending(es, now)
  {
    if k >= |es| || es[k].due > now || es[k] == e then false
    else
      var ts := ResetBy(resets, es[k].timer);
      ResettableIn(es, es[k].timer, resets, periodic);
      TurnKeeps(es, k, ts, now);
      PeriodicAfterTurn(es, k, ts, now, periodic);
      var (es', k') := ResettingTurn(es, k, ts, now);
      (k + 1 < |es| && es[k + 1].timer in ts) || CutBefore(es', k', now, resets, periodic, e)
  }

  /** For whole runs: a timer that is due on entry, and is itself not reset, fires if and only if no procedure that is
      called before it resets the saved next timer. */
  lemma {:induction false} DueFiresUnlessCut<T>(es: seq<Entry<T>>, k: nat, now: int, resets: map<T, seq<T>>,
                                                periodic: set<T>, e: Entry<T>)
    requires WellOrdered(es) && PeriodicIn(es, periodic) && ResetsWithin(resets, periodic)
    requires k <= |es| && e in es[k..] && e.due <= now && forall t <- resets :: e.timer !in resets[t]
    ensures 0 < Count(ResettingRun(es, k, now, resets, periodic).fired, e.timer) <==>
            !CutBefore(es, k, now, resets, periodic, e)
    decreases Pending(es, now)
  {
    hide Timers, Pending, Sorted, Distinct, Runnable, ResettingTurn, PeriodicIn, ResetsWithin, Resettable, Count;
    var j := BehindOrAt(es, k, now, e);
    var ts := ResetBy(resets, es[k].timer);
    ResettableIn(es, es[k].timer, resets, periodic);
    TurnKeeps(es, k, ts, now);
    PeriodicAfterTurn(es, k, ts, now, periodic);
    var (es', k') := ResettingTurn(es, k, ts, now);
    var r' := ResettingRun(es', k', now, resets, periodic);
    CountFirst(Firing(es[k].timer, es[k].due), r'.fired, e.timer);
    if j > k {
      OthersDiffer(es, k, j);
      DueStaysAhead(es, k, ts, now, j);
      if es[k + 1].timer in ts {
        CutEnds(es, k, ts, now);
        CountNone(e.timer);
      } else {
        DueFiresUnlessCut(es', k', now, resets, periodic, e);
      }
    }
  }

  lemma BehindOrAt<T>(es: seq<Entry<T>>, k: nat, now: int, e: Entry<T>) returns (j: nat)
    requires Sorted(es) && k <= |es| && e in es[k..] && e.due <= now
    ensures k <= j < |es| && es[j] == e && es[k].due <= now
  {
    j :| k <= j < |es| && es[j] == e;
    assert es[k].due <= es[j].due;
  }

  lemma OthersDiffer<T>(es: seq<Entry<T>>, k: nat, j: nat)
    requires WellOrdered(es) && k < j < |es|
    ensures es[k].timer != es[j].timer && es[k] != es[j]
  {
  }

  lemma CountFirst<T>(f: Firing<T>, fired: seq<Firing<T>>, t: T)
    ensures Count([f] + fired, t) == (if f.timer == t then 1 else 0) + Count(fired, t)
  {
    assert ([f] + fired)[1..] == fired;
  }

  /** After a turn that reset its next timer the run is over. */
  lemma CutEnds<T>(es: seq<Entry<T>>, k: nat, ts: seq<T>, now: int)
    requires WellOrdered(es) && k + 1 < |es| && Resettable(es, es[k].timer, ts) && es[k + 1].timer in ts
    ensures var (es', k') := ResettingTurn(es, k, ts, now);
            k' < |es'| && now < es'[k'].due
  {
    hide ResettingTurn, WellOrdered, Resettable;
    NextStays(es, k, ts, now);
    var (es', k') := ResettingTurn(es, k, ts, now);
    ResetIsLater(es, k, ts, now, es'[k']);
  }

  lemma ResetAt<T>(es: seq<Entry<T>>, p: nat, now: int)
    requires Distinct(es) && p < |es|
    ensures Reset(es, es[p].timer, now) == Insert(Without(es, p), es[p].(due := now + es[p].usecs))
  {
    hide PlaceOf, Insert, Without;
    PlaceOfIs(es, p);
  }

  /** The end of the omitted period resets the timer that is next, and the one behind it, due as well, does not run. */
  lemma ResetMakesMiss()
    ensures var es := [Entry(0, 0, 5, false), Entry(1, 0, 10, true), Entry(2, 0, 1, true)];
            && WellOrdered(es) && Resettable(es, 0, [1])
            && var (es', k') := ResettingTurn(es, 0, [1], 0);
               es[2].due <= 0 && es[2] in es' && es[2] !in es'[k'..]
  {
    hide ResettingTurn;
    var es := [Entry(0, 0, 5, false), Entry(1, 0, 10, true), Entry(2, 0, 1, true)];
    DueStaysAhead(es, 0, [1], 0, 2);
  }
}
