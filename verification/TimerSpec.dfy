/**
 What the timer routines do, said about sequences: the active timers in their order, each with its due time.
 */
module TimerSpec {

  /** A timer as the list sees it. */
  datatype Entry<T> = Entry(timer: T, due: int, usecs: int, periodic: bool)

  datatype Firing<T> = Firing(timer: T, due: int)

  predicate Sorted<T>(es: seq<Entry<T>>) {
    forall i, j :: 0 <= i < j < |es| ==> es[i].due <= es[j].due
  }

  ghost predicate Distinct<T>(es: seq<Entry<T>>) {
    forall i, j :: 0 <= i < j < |es| ==> es[i].timer != es[j].timer
  }

  /** The place of a timer due at the given time: behind all that are due then or earlier. */
  function Place<T>(es: seq<Entry<T>>, due: int): (p: nat)
    ensures p <= |es|
    ensures p < |es| ==> due < es[p].due
    ensures forall i :: 0 <= i < p ==> es[i].due <= due
  {
    if es == [] || due < es[0].due then 0 else 1 + Place(es[1..], due)
  }

  lemma {:induction false} PlaceIs<T>(es: seq<Entry<T>>, due: int, p: nat)
    requires p <= |es| && (forall i :: 0 <= i < p ==> es[i].due <= due) && (p < |es| ==> due < es[p].due)
    ensures Place(es, due) == p
    decreases p
  {
    if p > 0 {
      assert es[0].due <= due;
      assert forall i :: 0 <= i < p - 1 ==> es[1..][i] == es[i + 1];
      PlaceIs(es[1..], due, p - 1);
    }
  }

  function Insert<T>(es: seq<Entry<T>>, e: Entry<T>): seq<Entry<T>> {
    es[..Place(es, e.due)] + [e] + es[Place(es, e.due)..]
  }

  function Without<T>(es: seq<Entry<T>>, k: nat): seq<Entry<T>>
    requires k < |es|
  {
    es[..k] + es[k + 1..]
  }

  lemma InsertSorted<T>(es: seq<Entry<T>>, e: Entry<T>)
    requires Sorted(es)
    ensures Sorted(Insert(es, e))
  {
    var p := Place(es, e.due);
    forall i | p <= i < |es| ensures e.due < es[i].due {
      assert es[p].due <= es[i].due;
    }
  }

  lemma WithoutSorted<T>(es: seq<Entry<T>>, k: nat)
    requires Sorted(es) && k < |es|
    ensures Sorted(Without(es, k))
  {
    assert forall i :: 0 <= i < |es| - 1 ==> Without(es, k)[i] == es[if i < k then i else i + 1];
  }

  // ---- the run loop ----

  /** How far a timer is overdue, counting the present microsecond. */
  function Overdue(due: int, now: int): nat {
    if due <= now then now + 1 - due else 0
  }

  /** The measure of the run loop. */
  function Pending<T>(es: seq<Entry<T>>, now: int): nat {
    if es == [] then 0 else Overdue(es[0].due, now) + Pending(es[1..], now)
  }

  lemma {:induction false} PendingConcat<T>(a: seq<Entry<T>>, b: seq<Entry<T>>, now: int)
    ensures Pending(a + b, now) == Pending(a, now) + Pending(b, now)
  {
    if a == [] {
      assert a + b == b;
    } else {
      assert (a + b)[1..] == a[1..] + b;
      PendingConcat(a[1..], b, now);
    }
  }

  lemma PendingOne<T>(e: Entry<T>, now: int)
    ensures Pending([e], now) == Overdue(e.due, now)
  {
  }

  lemma PendingWithout<T>(es: seq<Entry<T>>, k: nat, now: int)
    requires k < |es|
    ensures Pending(Without(es, k), now) + Overdue(es[k].due, now) == Pending(es, now)
  {
    assert es == es[..k] + [es[k]] + es[k + 1..];
    PendingConcat(es[..k] + [es[k]], es[k + 1..], now);
    PendingConcat(es[..k], [es[k]], now);
    PendingConcat(es[..k], es[k + 1..], now);
    PendingOne(es[k], now);
  }

  lemma PendingInsert<T>(es: seq<Entry<T>>, e: Entry<T>, now: int)
    ensures Pending(Insert(es, e), now) == Pending(es, now) + Overdue(e.due, now)
  {
    var p := Place(es, e.due);
    PendingConcat(es[..p] + [e], es[p..], now);
    PendingConcat(es[..p], [e], now);
    PendingConcat(es[..p], es[p..], now);
    assert es[..p] + es[p..] == es;
    PendingOne(e, now);
  }

  datatype Run<T> = Run(active: seq<Entry<T>>, fired: seq<Firing<T>>, freed: seq<T>)

  /** Periodic timers have a period of at least a microsecond. */
  ghost predicate Runnable<T>(es: seq<Entry<T>>) {
    forall e <- es :: 0 <= e.usecs && (e.periodic ==> 0 < e.usecs)
  }

  /** A periodic timer after it has fired. */
  function Later<T>(e: Entry<T>): Entry<T> {
    e.(due := e.due + e.usecs)
  }

  /** One turn of the loop, with the cursor at k: the timers afterwards, and where the saved next one is now. */
  function Turn<T>(es: seq<Entry<T>>, k: nat): (r: (seq<Entry<T>>, nat))
    requires k < |es|
    ensures r.1 <= |r.0|
  {
    var rest := Without(es, k);
    if !es[k].periodic then (rest, k)
    else (Insert(rest, Later(es[k])), if Place(rest, Later(es[k]).due) <= k then k + 1 else k)
  }

  lemma TurnMembers<T>(es: seq<Entry<T>>, k: nat, e: Entry<T>)
    requires k < |es|
    ensures e in Turn(es, k).0 <==> e in es[..k] || e in es[k + 1..] || (es[k].periodic && e == Later(es[k]))
  {
    var rest := Without(es, k);
    assert e in rest <==> e in es[..k] || e in es[k + 1..];
    if es[k].periodic {
      var p := Place(rest, Later(es[k]).due);
      assert rest == rest[..p] + rest[p..];
      assert e in Insert(rest, Later(es[k])) <==> e in rest[..p] || e == Later(es[k]) || e in rest[p..];
    }
  }

  lemma TurnRunnable<T>(es: seq<Entry<T>>, k: nat, now: int)
    requires Runnable(es) && k < |es| && es[k].due <= now
    ensures Runnable(Turn(es, k).0)
    ensures Pending(Turn(es, k).0, now) < Pending(es, now)
  {
    PendingWithout(es, k, now);
    PendingInsert(Without(es, k), Later(es[k]), now);
    assert es[k] in es;
    forall e | e in Turn(es, k).0 ensures 0 <= e.usecs && (e.periodic ==> 0 < e.usecs) {
      TurnMembers(es, k, e);
    }
  }

  /** The loop from cursor k on. */
  function RunFrom<T>(es: seq<Entry<T>>, k: nat, now: int): (r: Run<T>)
    requires Runnable(es)
    decreases Pending(es, now)
  {
    if k >= |es| || es[k].due > now then Run(es, [], [])
    else
      TurnRunnable(es, k, now);
      var (es', k') := Turn(es, k);
      var r := RunFrom(es', k', now);
      Run(r.active, [Firing(es[k].timer, es[k].due)] + r.fired,
          if es[k].periodic then r.freed else [es[k].timer] + r.freed)
  }

  // ---- what a run does to each timer ----

  ghost function Timers<T>(es: seq<Entry<T>>): set<T> {
    set e | e in es :: e.timer
  }

  ghost function Count<T>(fired: seq<Firing<T>>, t: T): nat {
    if fired == [] then 0 else (if fired[0].timer == t then 1 else 0) + Count(fired[1..], t)
  }

  ghost predicate WellOrdered<T>(es: seq<Entry<T>>) {
    Runnable(es) && Sorted(es) && Distinct(es)
  }

  lemma WithoutDistinct<T>(es: seq<Entry<T>>, k: nat)
    requires Distinct(es) && k < |es|
    ensures Distinct(Without(es, k)) && es[k].timer !in Timers(Without(es, k)) && es[k].timer in Timers(es)
    ensures Timers(Without(es, k)) == Timers(es) - {es[k].timer}
  {
    var rest := Without(es, k);
    assert forall i :: 0 <= i < |rest| ==> rest[i] == es[if i < k then i else i + 1];
    assert es[k] in es;
    assert forall e :: e in es <==> e in rest || e == es[k] by {
      assert es == es[..k] + [es[k]] + es[k + 1..];
    }
  }

  lemma TurnWellOrdered<T>(es: seq<Entry<T>>, k: nat)
    requires WellOrdered(es) && k < |es|
    ensures Runnable(es) && Sorted(es) && Distinct(es)
    ensures Sorted(Turn(es, k).0) && Distinct(Turn(es, k).0)
    ensures Runnable(Turn(es, k).0) ==> WellOrdered(Turn(es, k).0)
    ensures Timers(Turn(es, k).0) == Timers(es) - (if es[k].periodic then {} else {es[k].timer})
    ensures es[k].timer !in Timers(Without(es, k))
  {
    hide Insert, Timers, Sorted, Distinct;
    var rest := Without(es, k);
    WithoutSorted(es, k);
    WithoutDistinct(es, k);
    if es[k].periodic {
      InsertSorted(rest, Later(es[k]));
      InsertDistinct(rest, Later(es[k]));
    }
  }

  lemma InsertDistinct<T>(es: seq<Entry<T>>, e: Entry<T>)
    requires Distinct(es) && e.timer !in Timers(es)
    ensures Distinct(Insert(es, e)) && Timers(Insert(es, e)) == Timers(es) + {e.timer}
  {
    hide Place;
    var p, r := Place(es, e.due), Insert(es, e);
    assert Timers(r) == Timers(es) + {e.timer} by {
      assert es == es[..p] + es[p..];
      assert forall x :: x in r <==> x in es || x == e;
    }
    forall i, j | 0 <= i < j < |r| ensures r[i].timer != r[j].timer {
      assert i != p ==> r[i] == es[if i < p then i else i - 1] && r[i] in es;
      assert j != p ==> r[j] == es[if j < p then j else j - 1] && r[j] in es;
    }
  }

  /** Timers outside the list neither fire nor appear. */
  lemma {:induction false} StrangersStay<T>(es: seq<Entry<T>>, k: nat, now: int, t: T)
    requires WellOrdered(es) && t !in Timers(es)
    ensures var r := RunFrom(es, k, now);
            Count(r.fired, t) == 0 && t !in r.freed && t !in Timers(r.active)
    decreases Pending(es, now)
  {
    if k < |es| && es[k].due <= now {
      TurnRunnable(es, k, now);
      TurnWellOrdered(es, k);
      var (es', k') := Turn(es, k);
      assert es[k] in es;
      StrangersStay(es', k', now, t);
      var r := RunFrom(es', k', now);
      assert ([Firing(es[k].timer, es[k].due)] + r.fired)[1..] == r.fired;
    }
  }

  /** What a run does to the timer of e, with c the number of times it fires. */
  ghost predicate Treated<T>(e: Entry<T>, now: int, r: Run<T>, c: nat) {
    if e.periodic then
      && e.(due := e.due + c * e.usecs) in r.active && e.timer !in r.freed
      && (c > 0 ==> e.due + (c - 1) * e.usecs <= now)
    else if c == 0 then e in r.active && e.timer !in r.freed
    else c == 1 && e.due <= now && e.timer in r.freed && e.timer !in Timers(r.active)
  }

  /** Every timer is treated that way, and those that the cursor still has to pass fire if they are due. */
  lemma {:induction false} RunTreats<T>(es: seq<Entry<T>>, k: nat, now: int, e: Entry<T>)
    requires WellOrdered(es) && k <= |es| && e in es
    ensures var r := RunFrom(es, k, now);
            && Treated(e, now, r, Count(r.fired, e.timer))
            && (e in es[k..] && e.due <= now ==> 0 < Count(r.fired, e.timer))
    decreases Pending(es, now)
  {
    hide Turn, RunFrom, Count, Sorted, Distinct, Runnable, Timers, Pending;
    if k == |es| || es[k].due > now {
      RunEnds(es, k, now);
      CountNone(e.timer);
      if e in es[k..] {
        LaterAreNotDue(es, k, now, e);
      }
    } else {
      TurnRunnable(es, k, now);
      TurnWellOrdered(es, k);
      var (es', k') := Turn(es, k);
      RunStep(es, k, now, e.timer);
      if e != es[k] {
        OthersKeepTheirTurn(es, k, e);
        RunTreats(es', k', now, e);
      } else if e.periodic {
        TurnMembers(es, k, Later(e));
        RunTreats(es', k', now, Later(e));
        OneMore(e, now, RunFrom(es, k, now), RunFrom(es', k', now));
      } else {
        StrangersStay(es', k', now, e.timer);
      }
    }
  }

  lemma RunEnds<T>(es: seq<Entry<T>>, k: nat, now: int)
    requires Runnable(es) && (k >= |es| || es[k].due > now)
    ensures RunFrom(es, k, now) == Run(es, [], [])
  {
  }

  lemma CountNone<T>(t: T)
    ensures Count<T>([], t) == 0
  {
  }

  lemma RunStep<T>(es: seq<Entry<T>>, k: nat, now: int, t: T)
    requires Runnable(es) && k < |es| && es[k].due <= now && Runnable(Turn(es, k).0)
    ensures var r, r' := RunFrom(es, k, now), RunFrom(Turn(es, k).0, Turn(es, k).1, now);
            && r.active == r'.active
            && r.fired == [Firing(es[k].timer, es[k].due)] + r'.fired
            && r.freed == (if es[k].periodic then r'.freed else [es[k].timer] + r'.freed)
            && Count(r.fired, t) == (if es[k].timer == t then 1 else 0) + Count(r'.fired, t)
  {
    var r' := RunFrom(Turn(es, k).0, Turn(es, k).1, now);
    assert ([Firing(es[k].timer, es[k].due)] + r'.fired)[1..] == r'.fired;
  }

  lemma OneMore<T>(e: Entry<T>, now: int, r: Run<T>, r': Run<T>)
    requires e.periodic && e.due <= now && r.active == r'.active && r.freed == r'.freed
    requires Treated(Later(e), now, r', Count(r'.fired, e.timer))
    requires Count(r.fired, e.timer) == 1 + Count(r'.fired, e.timer)
    ensures Treated(e, now, r, Count(r.fired, e.timer))
  {
    var c := Count(r'.fired, e.timer);
    assert (c + 1) * e.usecs == c * e.usecs + e.usecs;
    assert c > 0 ==> (c - 1) * e.usecs + e.usecs == c * e.usecs;
    assert Later(e).(due := Later(e).due + c * e.usecs) == e.(due := e.due + (c + 1) * e.usecs);
  }

  /** A turn leaves the other timers where the cursor will find them. */
  lemma OthersKeepTheirTurn<T>(es: seq<Entry<T>>, k: nat, e: Entry<T>)
    requires Distinct(es) && k < |es| && e in es && e != es[k]
    ensures e.timer != es[k].timer && e in Turn(es, k).0
    ensures e in es[k..] ==> e in Turn(es, k).0[Turn(es, k).1..]
  {
    var i :| 0 <= i < |es| && es[i] == e;
    var j, rest := if i < k then i else i - 1, Without(es, k);
    assert rest[j] == e;
    var (es', k') := Turn(es, k);
    var j' := j;
    if es[k].periodic {
      var p := Place(rest, Later(es[k]).due);
      j' := if j < p then j else j + 1;
    }
    assert es'[j'] == e;
    if e in es[k..] {
      var l :| k <= l < |es| && es[l] == e;
      assert l == i;
      assert k' <= j';
    }
  }

  lemma LaterAreNotDue<T>(es: seq<Entry<T>>, k: nat, now: int, e: Entry<T>)
    requires Sorted(es) && k < |es| && es[k].due > now && e in es[k..]
    ensures e.due > now
  {
    var i :| k <= i < |es| && es[i] == e;
  }

  // ---- what a run does to the list ----

  /** No timer is lost: each stays in the list, which stays sorted, or is freed. */
  lemma {:induction false} RunKeeps<T>(es: seq<Entry<T>>, k: nat, now: int)
    requires WellOrdered(es)
    ensures var r := RunFrom(es, k, now);
            && WellOrdered(r.active)
            && Timers(r.active) !! (set t | t in r.freed)
            && Timers(r.active) + (set t | t in r.freed) == Timers(es)
    decreases Pending(es, now)
  {
    hide Turn, RunFrom, Sorted, Distinct, Runnable, Timers, Pending;
    if k >= |es| || es[k].due > now {
      RunEnds(es, k, now);
    } else {
      TurnRunnable(es, k, now);
      TurnWellOrdered(es, k);
      RunStep(es, k, now, es[k].timer);
      var (es', k') := Turn(es, k);
      RunKeeps(es', k', now);
      var r, r' := RunFrom(es, k, now), RunFrom(es', k', now);
      if !es[k].periodic {
        TimerIn(es, k);
        assert (set t | t in r.freed) == {es[k].timer} + (set t | t in r'.freed);
      }
    }
  }

  lemma TimerIn<T>(es: seq<Entry<T>>, k: nat)
    requires k < |es|
    ensures es[k].timer in Timers(es)
  {
    assert es[k] in es;
  }

  /** Timers fire in the order of their due times, none before its time. */
  lemma {:induction false} FiredInOrder<T>(es: seq<Entry<T>>, k: nat, now: int)
    requires WellOrdered(es)
    ensures var fired := RunFrom(es, k, now).fired;
            && (forall i :: 0 <= i < |fired| ==> (if k < |es| then es[k].due else now) <= fired[i].due <= now)
            && (forall i, j :: 0 <= i < j < |fired| ==> fired[i].due <= fired[j].due)
    decreases Pending(es, now)
  {
    hide RunFrom, Distinct, Runnable, Timers, Pending, Insert;
    if k >= |es| || es[k].due > now {
      RunEnds(es, k, now);
    } else {
      TurnRunnable(es, k, now);
      TurnWellOrdered(es, k);
      RunStep(es, k, now, es[k].timer);
      var (es', k') := Turn(es, k);
      FiredInOrder(es', k', now);
      NextIsNext(es, k);
    }
  }

  /** The cursor moves on to the timer that stood behind the one just fired. */
  lemma NextIsNext<T>(es: seq<Entry<T>>, k: nat)
    requires Sorted(es) && k < |es|
    ensures var (es', k') := Turn(es, k);
            if k + 1 < |es| then k' < |es'| && es'[k'] == es[k + 1] && es[k].due <= es'[k'].due else k' == |es'|
  {
  }

  /** At most one firing for every period that fits between the due time and now, and one more. */
  lemma FiringBound<T>(e: Entry<T>, now: int, r: Run<T>)
    requires e.periodic && 0 < e.usecs && Treated(e, now, r, Count(r.fired, e.timer))
    ensures Count(r.fired, e.timer) <= if e.due <= now then (now - e.due) / e.usecs + 1 else 0
  {
    var c := Count(r.fired, e.timer);
    if c > 0 {
      assert (c - 1) * e.usecs >= 0;
      QuotientBound(now - e.due, e.usecs, c - 1);
    }
  }

  lemma QuotientBound(a: int, b: int, q: int)
    requires 0 < b && q * b <= a
    ensures q <= a / b
  {
    var r := a / b;
    assert a == r * b + a % b;
    assert (r + 1) * b == r * b + b;
    assert q > r ==> q * b >= (r + 1) * b;
  }
}
