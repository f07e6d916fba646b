/**
 When a run of the timers leaves one of them due.  The loop saves the next timer before it puts a periodic one back
 into the list, so a timer that goes back to the front is not looked at again, however late it is.
 */
module LateTimers {
  import opened TimerSpec

  /** When timer a is scheduled to fire for the i-th time after the first. */
  function Time<T>(es: seq<Entry<T>>, a: nat, i: nat): int
    requires a < |es|
  {
    es[a].due + i * es[a].usecs
  }

  /** The order of what is scheduled.  At equal times a timer in the list comes before one that goes back into it, and
      two that go back keep the order in which they fired before. */
  predicate Before<T>(es: seq<Entry<T>>, a: nat, i: nat, b: nat, j: nat)
    requires a < |es| && b < |es|
    decreases i
  {
    Time(es, a, i) < Time(es, b, j) ||
    (Time(es, a, i) == Time(es, b, j) &&
     if i == 0 then j > 0 || a < b else j > 0 && Before(es, a, i - 1, b, j - 1))
  }

  /** Timer b is scheduled for an i-th time, behind the j-th of timer a and no later than the next of a. */
  predicate Comes<T>(es: seq<Entry<T>>, a: nat, j: nat, b: nat, i: nat)
    requires a < |es| && b < |es|
  {
    && b != a && (i == 0 || es[b].periodic)
    && Before(es, a, j, b, i) && Time(es, b, i) <= Time(es, a, j + 1)
  }

  /** Another timer comes between one firing of a and the next. */
  ghost predicate Relieved<T>(es: seq<Entry<T>>, a: nat, j: nat)
    requires a < |es|
  {
    exists b: nat, i: nat :: b < |es| && Comes(es, a, j, b, i)
  }

  predicate DueAgain<T>(es: seq<Entry<T>>, a: nat, j: nat, now: int)
    requires a < |es|
  {
    es[a].periodic && Time(es, a, j + 1) <= now
  }

  /** That is so whenever a periodic timer is due again. */
  ghost predicate Followed<T>(es: seq<Entry<T>>, now: int) {
    forall a: nat, j: nat | a < |es| && DueAgain(es, a, j, now) :: Relieved(es, a, j)
  }

  ghost predicate NothingDue<T>(es: seq<Entry<T>>, now: int) {
    forall e <- es :: e.due > now
  }

  // ---- the head of the list ----

  lemma TimeGrows<T>(es: seq<Entry<T>>, a: nat, i: nat)
    requires Runnable(es) && a < |es|
    ensures es[a].due <= Time(es, a, i)
    ensures Time(es, a, i + 1) == Time(es, a, i) + es[a].usecs
  {
    assert es[a] in es;
    assert 0 <= i * es[a].usecs;
    assert (i + 1) * es[a].usecs == i * es[a].usecs + es[a].usecs;
  }

  /** What is at the head comes before everything else. */
  lemma HeadFirst<T>(es: seq<Entry<T>>, b: nat, j: nat)
    requires WellOrdered(es) && 0 < b < |es|
    ensures Before(es, 0, 0, b, j) && !Before(es, b, j, 0, 0)
    ensures Time(es, 0, 0) == es[0].due <= Time(es, b, j)
  {
    TimeGrows(es, b, j);
  }

  // ---- a timer that fires once leaves the list ----

  lemma {:induction false} BeforeTail<T>(es: seq<Entry<T>>, a: nat, i: nat, b: nat, j: nat)
    requires 0 < a < |es| && 0 < b < |es|
    ensures Before(es[1..], a - 1, i, b - 1, j) <==> Before(es, a, i, b, j)
    decreases i
  {
    if i > 0 && j > 0 {
      BeforeTail(es, a, i - 1, b, j - 1);
    }
  }

  lemma RelievedTail<T>(es: seq<Entry<T>>, a: nat, j: nat)
    requires WellOrdered(es) && 0 < a < |es| && !es[0].periodic
    ensures Relieved(es[1..], a - 1, j) <==> Relieved(es, a, j)
  {
    hide Before;
    if Relieved(es, a, j) {
      var b: nat, i: nat :| b < |es| && Comes(es, a, j, b, i);
      HeadFirst(es, a, j);
      BeforeTail(es, a, j, b, i);
      assert Comes(es[1..], a - 1, j, b - 1, i);
    }
    if Relieved(es[1..], a - 1, j) {
      var b: nat, i: nat :| b < |es[1..]| && Comes(es[1..], a - 1, j, b, i);
      BeforeTail(es, a, j, b + 1, i);
      assert Comes(es, a, j, b + 1, i);
    }
  }

  lemma FollowedTail<T>(es: seq<Entry<T>>, now: int)
    requires WellOrdered(es) && es != [] && !es[0].periodic
    ensures Followed(es[1..], now) <==> Followed(es, now)
  {
    hide Relieved;
    forall a: nat, j: nat | 0 < a < |es| ensures Relieved(es[1..], a - 1, j) <==> Relieved(es, a, j) {
      RelievedTail(es, a, j);
    }
    if Followed(es, now) {
      forall a: nat, j: nat | a < |es[1..]| && DueAgain(es[1..], a, j, now)
        ensures Relieved(es[1..], a, j)
      {
        assert DueAgain(es, a + 1, j, now);
        assert Relieved(es, a + 1, j);
      }
    }
    if Followed(es[1..], now) {
      forall a: nat, j: nat | a < |es| && DueAgain(es, a, j, now) ensures Relieved(es, a, j) {
        assert DueAgain(es[1..], a - 1, j, now);
        assert Relieved(es[1..], a - 1, j);
      }
    }
  }

  // ---- a periodic timer goes back into it ----

  /** The list after the head has fired, and where its timers are then. */
  function Back<T>(es: seq<Entry<T>>): seq<Entry<T>>
    requires es != []
  {
    Insert(es[1..], Later(es[0]))
  }

  function NewPlace<T>(es: seq<Entry<T>>, a: nat): (r: nat)
    requires a < |es|
    ensures r < |Back(es)|
    ensures Back(es)[r] == if a == 0 then Later(es[0]) else es[a]
  {
    var p := Place(es[1..], Later(es[0]).due);
    if a == 0 then p else if a <= p then a - 1 else a
  }

  function OldPlace<T>(es: seq<Entry<T>>, b: nat): (a: nat)
    requires es != [] && b < |Back(es)|
    ensures a < |es| && NewPlace(es, a) == b
  {
    var p := Place(es[1..], Later(es[0]).due);
    if b == p then 0 else if b < p then b + 1 else b
  }

  /** Of the head the first firing is gone. */
  function NewTurn(a: nat, i: nat): nat
    requires a == 0 ==> 0 < i
  {
    if a == 0 then i - 1 else i
  }

  lemma TimeBack<T>(es: seq<Entry<T>>, a: nat, i: nat)
    requires a < |es| && (a == 0 ==> 0 < i)
    ensures Time(Back(es), NewPlace(es, a), NewTurn(a, i)) == Time(es, a, i)
  {
    if a == 0 {
      assert i * es[0].usecs == (i - 1) * es[0].usecs + es[0].usecs;
    }
  }

  /** The head goes behind those that are due at its new time, and the others keep their order. */
  lemma PlacesBack<T>(es: seq<Entry<T>>, a: nat, b: nat)
    requires Sorted(es) && a < |es| && b < |es| && a != b
    ensures NewPlace(es, a) != NewPlace(es, b)
    ensures 0 < a && 0 < b ==> (NewPlace(es, a) < NewPlace(es, b) <==> a < b)
    ensures b == 0 && es[a].due == Later(es[0]).due ==> NewPlace(es, a) < NewPlace(es, b)
  {
    hide Insert;
    var p := Place(es[1..], Later(es[0]).due);
    if p < |es[1..]| {
      assert es[1..][p] == es[p + 1];
      assert p + 1 <= a ==> es[p + 1].due <= es[a].due;
    }
  }

  lemma {:induction false} BeforeBack<T>(es: seq<Entry<T>>, a: nat, i: nat, b: nat, j: nat)
    requires WellOrdered(es) && a < |es| && b < |es| && a != b
    requires (a == 0 ==> 0 < i) && (b == 0 ==> 0 < j)
    ensures Before(Back(es), NewPlace(es, a), NewTurn(a, i), NewPlace(es, b), NewTurn(b, j)) <==> Before(es, a, i, b, j)
    decreases i
  {
    hide Insert, Place, Back, NewPlace;
    TimeBack(es, a, i);
    TimeBack(es, b, j);
    PlacesBack(es, a, b);
    PlacesBack(es, b, a);
    if Time(es, a, i) == Time(es, b, j) && i > 0 && j > 0 {
      if a == 0 && i == 1 {
        HeadFirst(es, b, j - 1);
      } else if b == 0 && j == 1 {
        HeadFirst(es, a, i - 1);
      } else {
        BeforeBack(es, a, i - 1, b, j - 1);
      }
    }
  }

  lemma RelievedBack<T>(es: seq<Entry<T>>, a: nat, j: nat)
    requires WellOrdered(es) && a < |es| && es[0].periodic && (a == 0 ==> 0 < j)
    ensures Relieved(Back(es), NewPlace(es, a), NewTurn(a, j)) <==> Relieved(es, a, j)
  {
    hide Before, Back, NewPlace, OldPlace;
    var a', j' := NewPlace(es, a), NewTurn(a, j);
    TimeBack(es, a, j + 1);
    if Relieved(es, a, j) {
      var b: nat, i: nat :| b < |es| && Comes(es, a, j, b, i);
      if b == 0 && i == 0 {
        HeadFirst(es, a, j);
      }
      PlacesBack(es, a, b);
      TimeBack(es, b, i);
      BeforeBack(es, a, j, b, i);
      assert Comes(Back(es), a', j', NewPlace(es, b), NewTurn(b, i));
    }
    if Relieved(Back(es), a', j') {
      var b': nat, i': nat :| b' < |Back(es)| && Comes(Back(es), a', j', b', i');
      var b := OldPlace(es, b');
      var i := if b == 0 then i' + 1 else i';
      TimeBack(es, b, i);
      BeforeBack(es, a, j, b, i);
      assert Comes(es, a, j, b, i);
    }
  }

  /** If the head is followed at all, the first to come is the next in the list. */
  lemma HeadRelieved<T>(es: seq<Entry<T>>)
    requires WellOrdered(es) && es != [] && es[0].periodic
    ensures Relieved(es, 0, 0) <==> 1 < |es| && es[1].due <= Later(es[0]).due
  {
    hide Before;
    if 1 < |es| && es[1].due <= Later(es[0]).due {
      HeadFirst(es, 1, 0);
      assert Comes(es, 0, 0, 1, 0);
    }
    if Relieved(es, 0, 0) {
      var b: nat, i: nat :| b < |es| && Comes(es, 0, 0, b, i);
      TimeGrows(es, b, i);
      assert es[1].due <= es[b].due;
    }
  }

  lemma FollowedBack<T>(es: seq<Entry<T>>, now: int)
    requires WellOrdered(es) && es != [] && es[0].periodic
    ensures Followed(es, now) <==>
            Followed(Back(es), now) && (Later(es[0]).due <= now ==> 1 < |es| && es[1].due <= Later(es[0]).due)
  {
    hide Relieved, Back, NewPlace, OldPlace;
    HeadRelieved(es);
    if Followed(es, now) {
      assert Later(es[0]).due <= now ==> DueAgain(es, 0, 0, now) && Relieved(es, 0, 0);
      forall a': nat, j': nat | a' < |Back(es)| && DueAgain(Back(es), a', j', now)
        ensures Relieved(Back(es), a', j')
      {
        var a := OldPlace(es, a');
        var j := if a == 0 then j' + 1 else j';
        TimeBack(es, a, j + 1);
        assert DueAgain(es, a, j, now) && Relieved(es, a, j);
        RelievedBack(es, a, j);
      }
    }
    if Followed(Back(es), now) && (Later(es[0]).due <= now ==> 1 < |es| && es[1].due <= Later(es[0]).due) {
      forall a: nat, j: nat | a < |es| && DueAgain(es, a, j, now) ensures Relieved(es, a, j) {
        if a > 0 || j > 0 {
          TimeBack(es, a, j + 1);
          RelievedBack(es, a, j);
          assert DueAgain(Back(es), NewPlace(es, a), NewTurn(a, j), now);
        }
      }
    }
  }

  // ---- the run ----

  /** What stands before the cursor is left alone. */
  lemma {:induction false} PassedStays<T>(es: seq<Entry<T>>, k: nat, now: int, e: Entry<T>)
    requires WellOrdered(es) && k <= |es| && e in es[..k]
    ensures e in RunFrom(es, k, now).active
    decreases Pending(es, now)
  {
    hide RunFrom, Sorted, Distinct, Runnable, Timers, Pending, Turn;
    if k == |es| || es[k].due > now {
      RunEnds(es, k, now);
    } else {
      TurnRunnable(es, k, now);
      TurnWellOrdered(es, k);
      RunStep(es, k, now, es[k].timer);
      var (es', k') := Turn(es, k);
      PassedByTurn(es, k, e);
      PassedStays(es', k', now, e);
    }
  }

  lemma PassedByTurn<T>(es: seq<Entry<T>>, k: nat, e: Entry<T>)
    requires k < |es| && e in es[..k]
    ensures e in Turn(es, k).0[..Turn(es, k).1]
  {
    var i :| 0 <= i < k && es[i] == e;
    var rest := Without(es, k);
    assert rest[i] == e;
    var (es', k') := Turn(es, k);
    var i' := i;
    if es[k].periodic {
      var p := Place(rest, Later(es[k]).due);
      i' := if i < p then i else i + 1;
    }
    assert es'[i'] == e && i' < k';
  }

  lemma NothingScheduled<T>(es: seq<Entry<T>>, now: int)
    requires Runnable(es) && NothingDue(es, now)
    ensures Followed(es, now)
  {
    hide Relieved;
    forall a: nat, j: nat | a < |es| ensures !DueAgain(es, a, j, now) {
      assert es[a] in es;
      TimeGrows(es, a, j + 1);
    }
  }

  /** The turn of the head: whether it goes back to the front. */
  lemma HeadTurn<T>(es: seq<Entry<T>>)
    requires es != []
    ensures !es[0].periodic ==> Turn(es, 0) == (es[1..], 0)
    ensures es[0].periodic ==>
              Turn(es, 0) == (Back(es), if 1 < |es| && es[1].due <= Later(es[0]).due then 0 else 1)
    ensures es[0].periodic && Turn(es, 0).1 == 1 ==> Back(es) == [Later(es[0])] + es[1..]
  {
    hide Insert, Place;
    assert Without(es, 0) == es[1..];
    FrontPlace(es[1..], Later(es[0]));
  }

  lemma FrontPlace<T>(es: seq<Entry<T>>, e: Entry<T>)
    ensures Place(es, e.due) == 0 <==> es == [] || e.due < es[0].due
    ensures Place(es, e.due) == 0 ==> Insert(es, e) == [e] + es
  {
  }

  /** No timer is due after a run if and only if every periodic timer was followed: between one scheduled time of it and
      the next, as far as they are due, there was always one of another timer. */
  lemma {:induction false} NothingDueIffFollowed<T>(es: seq<Entry<T>>, now: int)
    requires WellOrdered(es)
    ensures NothingDue(RunFrom(es, 0, now).active, now) <==> Followed(es, now)
    decreases Pending(es, now)
  {
    hide RunFrom, Distinct, Runnable, Timers, Pending, Turn, Followed, Back;
    if es == [] || es[0].due > now {
      RunEnds(es, 0, now);
      NothingScheduled(es, now);
    } else {
      TurnRunnable(es, 0, now);
      TurnWellOrdered(es, 0);
      RunStep(es, 0, now, es[0].timer);
      HeadTurn(es);
      if !es[0].periodic {
        NothingDueIffFollowed(es[1..], now);
        FollowedTail(es, now);
      } else {
        FollowedBack(es, now);
        if Turn(es, 0).1 == 0 {
          NothingDueIffFollowed(Back(es), now);
        } else {
          FrontAfterMiss(es, now);
        }
      }
    }
  }

  /** The head has gone back to the front, where it stays. */
  lemma FrontAfterMiss<T>(es: seq<Entry<T>>, now: int)
    requires WellOrdered(es) && es != [] && Turn(es, 0).1 == 1 && Turn(es, 0).0 == Back(es)
    requires WellOrdered(Back(es)) && Back(es) == [Later(es[0])] + es[1..]
    requires 1 < |es| ==> Later(es[0]).due < es[1].due
    ensures NothingDue(RunFrom(Back(es), 1, now).active, now) <==> now < Later(es[0]).due
    ensures now < Later(es[0]).due ==> Followed(Back(es), now)
  {
    hide RunFrom, Distinct, Runnable, Timers, Pending, Turn, Followed, Back, Insert;
    var es' := Back(es);
    assert es'[0] == Later(es[0]) && Later(es[0]) in es'[..1];
    PassedStays(es', 1, now, Later(es[0]));
    if now < Later(es[0]).due {
      RunEnds(es', 1, now);
      NothingScheduled(es', now);
    }
  }

  // ---- what follows ----

  /** No timer is due after a run if none was late by its period. */
  lemma InTime<T>(es: seq<Entry<T>>, now: int)
    requires WellOrdered(es) && forall e <- es :: e.periodic && e.due <= now ==> now < e.due + e.usecs
    ensures NothingDue(RunFrom(es, 0, now).active, now)
  {
    hide Relieved, RunFrom;
    forall a: nat, j: nat | a < |es| ensures !DueAgain(es, a, j, now) {
      assert es[a] in es;
      TimeGrows(es, a, j);
    }
    NothingDueIffFollowed(es, now);
  }

  /** A lone periodic timer is due after a run exactly if it was late by its period. */
  lemma LoneTimer<T>(e: Entry<T>, now: int)
    requires 0 < e.usecs && e.periodic
    ensures WellOrdered([e])
    ensures NothingDue(RunFrom([e], 0, now).active, now) <==> now < e.due + e.usecs
  {
    hide RunFrom;
    HeadRelieved([e]);
    if now < e.due + e.usecs {
      InTime([e], now);
    } else {
      assert DueAgain([e], 0, 0, now);
      NothingDueIffFollowed([e], now);
    }
  }

  /** So a run need not catch up: here one firing, and the timer is due again. */
  lemma LatePeriodicStaysDue()
    ensures var e := Entry(0, 0, 1, true);
            Runnable([e]) && RunFrom([e], 0, 5) == Run([e.(due := 1)], [Firing(0, 0)], [])
  {
    var e := Entry(0, 0, 1, true);
    HeadTurn([e]);
    assert Back([e]) == [e.(due := 1)];
    TurnRunnable([e], 0, 5);
    RunStep([e], 0, 5, 0);
    RunEnds([e.(due := 1)], 1, 5);
  }
}
