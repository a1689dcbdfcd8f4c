/** The timing of the polling loop: a ticker, a deadline, and the caller's cancellation. */
module PollTimer {
  import opened Results

  /**
   What the polling loop cannot know beforehand: how long each poll takes, which way select goes when the ticker and the
   deadline are both ready, when the caller's context is done, and whether it then expired or was cancelled. Times are
   counted from the start of the loop.
   */
  datatype PollClock = PollClock(took: nat -> nat, deadlineFirst: nat -> bool, callerDone: Option<nat>,
                                 callerExpired: bool) {
    /** When the polling context is done: at the timeout, or with the caller's context if that is earlier. */
    function Deadline(timeout: nat): nat {
      if callerDone.Some? && callerDone.value < timeout then callerDone.value else timeout
    }

    /** Whether it then has expired, rather than been cancelled. */
    predicate Expires(timeout: nat) {
      callerDone.Some? && callerDone.value < timeout ==> callerExpired
    }
  }

  /** How many multiples of the interval a ticker has passed by `t`. */
  function TicksBy(t: nat, interval: nat): nat
    requires interval > 0
  {
    if t < interval then 0 else 1 + TicksBy(t - interval, interval)
  }

  /** The first multiple of the interval after `t`. */
  function MultipleAfter(t: nat, interval: nat): (m: nat)
    requires interval > 0
    ensures t < m <= t + interval && TicksBy(m, interval) == TicksBy(t, interval) + 1
  {
    if t < interval then interval else interval + MultipleAfter(t - interval, interval)
  }

  lemma {:induction false} TicksMonotone(t: nat, u: nat, interval: nat)
    requires interval > 0 && t <= u
    ensures TicksBy(t, interval) <= TicksBy(u, interval)
    decreases t
  {
    if t >= interval {
      TicksMonotone(t - interval, u - interval, interval);
    }
  }

  lemma {:induction false} TicksAreQuotient(t: nat, interval: nat)
    requires interval > 0
    ensures TicksBy(t, interval) == t / interval
  {
    if t >= interval {
      TicksAreQuotient(t - interval, interval);
      DropOne(t, interval);
    }
  }

  lemma DropOne(t: nat, d: nat)
    requires 0 < d <= t
    ensures t / d == (t - d) / d + 1
  {
    var q, r := (t - d) / d, (t - d) % d;
    assert t - d == q * d + r;
    assert t == (q + 1) * d + r;
    QuotientIs(t, q + 1, r, d);
  }

  lemma TimesMonotone(x: nat, y: nat, d: nat)
    requires x <= y
    ensures x * d <= y * d
  {
  }

  lemma QuotientIs(t: nat, q: nat, r: nat, d: nat)
    requires r < d && t == q * d + r
    ensures t / d == q
  {
    var q', r' := t / d, t % d;
    assert t == q' * d + r';
    assert (q' + 1) * d == q' * d + d;
    assert (q + 1) * d == q * d + d;
    if q' < q {
      TimesMonotone(q' + 1, q, d);
    } else if q < q' {
      TimesMonotone(q + 1, q', d);
    }
  }

  /** The time of the k-th tick. */
  function TickTime(k: nat, interval: nat): nat {
    k * interval
  }

  lemma {:induction false} TicksPassed(k: nat, t: nat, interval: nat)
    requires interval > 0 && TickTime(k, interval) <= t
    ensures k <= TicksBy(t, interval)
  {
    if k > 0 {
      assert TickTime(k, interval) == TickTime(k - 1, interval) + interval;
      TicksPassed(k - 1, t - interval, interval);
    }
  }

  /** A ticker holds one tick until it is received; `seen` counts the ticks passed when one was last received. */
  function NextTick(now: nat, seen: nat, interval: nat): (at: nat)
    requires interval > 0 && seen <= TicksBy(now, interval)
    ensures at >= now && TicksBy(at, interval) > seen
  {
    if TicksBy(now, interval) > seen then now else MultipleAfter(now, interval)
  }

  lemma {:induction false} NoneBetween(now: nat, t: nat, interval: nat)
    requires interval > 0 && now <= t < MultipleAfter(now, interval)
    ensures TicksBy(t, interval) == TicksBy(now, interval)
  {
    if now >= interval {
      NoneBetween(now - interval, t - interval, interval);
    }
  }

  lemma NextTickIsFirst(now: nat, seen: nat, t: nat, interval: nat)
    requires interval > 0 && seen <= TicksBy(now, interval) && now <= t < NextTick(now, seen, interval)
    ensures TicksBy(t, interval) <= seen
  {
    NoneBetween(now, t, interval);
  }

  /** What select comes back with, and when: a tick, or the end of the context. */
  datatype Wake = Ticked(at: nat) | Ended(at: nat)

  function Select(now: nat, seen: nat, interval: nat, deadline: nat, deadlineFirst: bool): Wake
    requires interval > 0 && seen <= TicksBy(now, interval)
  {
    var tickAt := NextTick(now, seen, interval);
    var doneAt := if now < deadline then deadline else now;
    if doneAt < tickAt || (doneAt == tickAt && deadlineFirst) then Ended(doneAt) else Ticked(tickAt)
  }

  /** There is something to select at this time: a tick that has not been received, or the end of the context. */
  predicate Selectable(t: nat, seen: nat, interval: nat, deadline: nat)
    requires interval > 0
  {
    TicksBy(t, interval) > seen || deadline <= t
  }

  /**
   Select comes back the first moment there is something to select, with something there is; of two things at once, with
   either.
   */
  lemma SelectsTheFirst(now: nat, seen: nat, interval: nat, deadline: nat, deadlineFirst: bool)
    requires interval > 0 && seen <= TicksBy(now, interval)
    ensures var wake := Select(now, seen, interval, deadline, deadlineFirst);
            && wake.at >= now
            && (forall t | now <= t < wake.at :: !Selectable(t, seen, interval, deadline))
            && (wake.Ticked? ==> TicksBy(wake.at, interval) > seen)
            && (wake.Ended? ==> deadline <= wake.at)
            && (TicksBy(wake.at, interval) > seen && deadline <= wake.at ==> (wake.Ended? <==> deadlineFirst))
  {
    var wake := Select(now, seen, interval, deadline, deadlineFirst);
    forall t | now <= t < wake.at ensures !Selectable(t, seen, interval, deadline) {
      NextTickIsFirst(now, seen, t, interval);
    }
    if wake.Ended? && wake.at < NextTick(now, seen, interval) {
      NextTickIsFirst(now, seen, wake.at, interval);
    }
  }

  /** Where the loop stands: the time, the ticks passed when one was last received, and the polls made. */
  datatype Pace = Pace(now: nat, seen: nat, polls: nat)

  /** Every poll but the first was let through by a tick of its own, and each of those came by now. */
  predicate Kept(pace: Pace, interval: nat)
    requires interval > 0
  {
    pace.polls <= pace.seen <= TicksBy(pace.now, interval)
  }

  /** With polls that take less than an interval no tick is missed. */
  ghost predicate Quick(clock: PollClock, interval: nat) {
    forall k: nat :: clock.took(k) < interval
  }

  predicate Punctual(pace: Pace, interval: nat)
    requires interval > 0
  {
    pace.polls == pace.seen && TicksBy(pace.now, interval) <= pace.seen
  }

  lemma {:induction false} OneTickAtMost(t: nat, u: nat, interval: nat)
    requires interval > 0 && t <= u < t + interval
    ensures TicksBy(u, interval) <= TicksBy(t, interval) + 1
  {
    TicksMonotone(u, t + interval, interval);
  }

  lemma NextIsPunctual(pace: Pace, polled: nat, at: nat, interval: nat)
    requires interval > 0 && Punctual(pace, interval) && pace.now <= polled < pace.now + interval
    requires pace.seen <= TicksBy(polled, interval) && at == NextTick(polled, pace.seen, interval)
    ensures TicksBy(at, interval) == pace.seen + 1
  {
    OneTickAtMost(pace.now, polled, interval);
  }

  lemma TickTimeBy(t: nat, interval: nat)
    requires interval > 0
    ensures TickTime(TicksBy(t, interval), interval) <= t
  {
    TicksAreQuotient(t, interval);
  }

  /** A context that ends after quick polls has seen all ticks but the one it may end with. */
  lemma NoTickIsLeft(pace: Pace, polled: nat, interval: nat, deadline: nat)
    requires interval > 0 && Punctual(pace, interval) && pace.now <= polled < pace.now + interval
    requires pace.now < deadline
    requires polled < deadline ==> forall k: nat | TickTime(k, interval) < deadline :: k <= pace.seen
    ensures TicksBy(deadline, interval) <= pace.seen + 1
  {
    if polled < deadline {
      var m := TicksBy(deadline, interval);
      TickTimeBy(deadline, interval);
      if m > 0 {
        assert TickTime(m, interval) == TickTime(m - 1, interval) + interval;
      }
    } else {
      OneTickAtMost(pace.now, deadline, interval);
    }
  }

  /** The poll and the select behind it: when the loop goes on, and when it gives up. */
  method AwaitTick(pace: Pace, interval: nat, deadline: nat, clock: PollClock) returns (goOn: bool, next: Pace)
    requires interval > 0 && Kept(pace, interval)
    ensures next.now >= pace.now + clock.took(pace.polls + 1) && next.polls == pace.polls + 1
    // A ticker holds one tick only: of several that have passed, all but the one received are lost.
    ensures goOn ==> Kept(next, interval) && next.seen > pace.seen && next.seen == TicksBy(next.now, interval)
    ensures goOn && next.now < deadline ==> next.seen <= TicksBy(deadline, interval)
    // It goes on at the first tick it has not received, unless the context is done by then.
    ensures forall t | pace.now + clock.took(pace.polls + 1) <= t < next.now ::
              t < deadline && TicksBy(t, interval) <= pace.seen
    // It gives up only when the context is done, and no tick was there before.
    ensures !goOn ==> deadline <= next.now
    ensures !goOn && pace.now + clock.took(pace.polls + 1) < deadline ==>
              forall k: nat | TickTime(k, interval) < deadline :: k <= pace.seen
    // With quick polls it misses no tick.
    ensures Quick(clock, interval) && Punctual(pace, interval) ==>
              if goOn then Punctual(next, interval)
              else pace.now < deadline ==> TicksBy(deadline, interval) <= next.polls
  {
    var polled := pace.now + clock.took(pace.polls + 1);
    TicksMonotone(pace.now, polled, interval);
    var wake := Select(polled, pace.seen, interval, deadline, clock.deadlineFirst(pace.polls + 1));
    SelectsTheFirst(polled, pace.seen, interval, deadline, clock.deadlineFirst(pace.polls + 1));
    forall t | polled <= t < wake.at ensures t < deadline && TicksBy(t, interval) <= pace.seen {
      assert !Selectable(t, pace.seen, interval, deadline);
    }
    if wake.Ended? {
      if polled < deadline {
        assert !Selectable(wake.at - 1, pace.seen, interval, deadline);
        forall k: nat | TickTime(k, interval) < deadline ensures k <= pace.seen {
          TicksPassed(k, deadline - 1, interval);
        }
      }
      if Quick(clock, interval) && Punctual(pace, interval) && pace.now < deadline {
        NoTickIsLeft(pace, polled, interval, deadline);
      }
      return false, pace.(now := wake.at, polls := pace.polls + 1);
    }
    if wake.at < deadline {
      TicksMonotone(wake.at, deadline, interval);
    }
    next := Pace(wake.at, TicksBy(wake.at, interval), pace.polls + 1);
    if Quick(clock, interval) && Punctual(pace, interval) {
      NextIsPunctual(pace, polled, wake.at, interval);
    }
    return true, next;
  }
}
