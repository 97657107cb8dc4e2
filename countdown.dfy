/** The countdown of a game session: the coarse `_timer` (seconds), the
    fine `_tick` (ticks left in the current second), the `_progressTicker`
    (interval runs left before expiry), the `_timerInterval` handle, and the
    number of interval callbacks that are scheduled. */
module Countdown {

  /** Fine ticks per coarse second (`TICK`). */
  const TICK: int := 5

  /** `handle` says whether `_timerInterval` holds a handle; `intervals`
      counts scheduled callbacks, including ones whose handle was
      overwritten by a later `startTimer` and can no longer be cleared. */
  datatype Clock = Clock(timer: int, tick: int, progressTicker: int, handle: bool, intervals: nat)

  /** Kept by every operation: the fine tick stays in [0, TICK] and a held
      handle names a scheduled callback. */
  predicate Valid(c: Clock) {
    0 <= c.tick <= TICK && (c.handle ==> c.intervals >= 1)
  }

  /** No interval leak: exactly the callback named by the handle is scheduled. */
  predicate NoLeak(c: Clock) {
    c.intervals == if c.handle then 1 else 0
  }

  /** The next callback run takes the expiry branch. */
  predicate Expiring(c: Clock) {
    c.progressTicker <= 0 && c.handle
  }

  /** `setTick`: at the bottom of the fine range one second is taken off
      the coarse timer and the fine tick starts over at 5; otherwise the fine
      tick drops by one. */
  function SetTick(c: Clock): (r: Clock)
    ensures c.tick <= 0 ==> r.timer == c.timer - 1 && r.tick == TICK
    ensures c.tick > 0 ==> r.timer == c.timer && r.tick == c.tick - 1
    ensures r.progressTicker == c.progressTicker && r.handle == c.handle && r.intervals == c.intervals
    ensures Valid(c) ==> Valid(r)
  {
    if c.tick <= 0 then c.(timer := c.timer - 1, tick := 5) else c.(tick := c.tick - 1)
  }

  /** `startTimer`: schedules one more callback; its handle replaces any
      handle held before. */
  function StartTimer(c: Clock): (r: Clock)
    ensures r.handle && r.intervals == c.intervals + 1
    ensures r.timer == c.timer && r.tick == c.tick && r.progressTicker == c.progressTicker
    ensures Valid(c) ==> Valid(r)
    ensures Valid(c) && c.handle ==> !NoLeak(r)
  {
    c.(handle := true, intervals := c.intervals + 1)
  }

  /** The countdown part of one run of the interval callback: on expiry the
      ticker is pinned at 0 and the held callback is cleared; otherwise the
      ticker drops by one and a fine tick is taken. A callback runs only
      while one is scheduled. */
  function Fire(c: Clock): (r: Clock)
    requires c.intervals > 0
    ensures Expiring(c) ==> r == Clock(c.timer, c.tick, 0, false, c.intervals - 1)
    ensures !Expiring(c) ==> r.progressTicker == c.progressTicker - 1
    ensures !Expiring(c) ==> r.handle == c.handle && r.intervals == c.intervals
    ensures !Expiring(c) && c.tick <= 0 ==> r.timer == c.timer - 1 && r.tick == TICK
    ensures !Expiring(c) && c.tick > 0 ==> r.timer == c.timer && r.tick == c.tick - 1
    ensures Valid(c) ==> Valid(r)
    ensures NoLeak(c) ==> NoLeak(r)
  {
    if Expiring(c) then
      c.(progressTicker := 0, handle := false, intervals := c.intervals - 1)
    else
      SetTick(c.(progressTicker := c.progressTicker - 1))
  }

  /** The countdown part of `update`: start a callback when no handle is
      held, then refill the coarse timer to the full duration and the ticker
      to TICK runs per second of it. */
  function Refill(c: Clock, fullTime: int): (r: Clock)
    ensures r.timer == fullTime && r.progressTicker == fullTime * TICK && r.tick == c.tick
    ensures r.handle
    ensures r.intervals == if c.handle then c.intervals else c.intervals + 1
    ensures Valid(c) ==> Valid(r)
    ensures NoLeak(c) ==> NoLeak(r)
  {
    var c1 := if !c.handle then StartTimer(c) else c;
    c1.(timer := fullTime, progressTicker := fullTime * TICK)
  }

  /** `n` callback runs in a row, none of which expires. */
  function Fires(c: Clock, n: nat): (r: Clock)
    requires c.intervals > 0 && c.progressTicker >= n
    ensures r.progressTicker == c.progressTicker - n
    ensures r.handle == c.handle && r.intervals == c.intervals
    decreases n
  {
    if n == 0 then c else Fires(Fire(c), n - 1)
  }

  lemma {:induction false} FiresAdd(c: Clock, a: nat, b: nat)
    requires c.intervals > 0 && c.progressTicker >= a + b
    ensures Fires(c, a + b) == Fires(Fires(c, a), b)
    decreases a
  {
    if a > 0 {
      FiresAdd(Fire(c), a - 1, b);
    }
  }

  /** Starting from a full fine tick, five runs leave the coarse timer alone
      and the sixth takes one second off it and restores the fine tick: one
      coarse second lasts six runs, not five. */
  lemma OneSecondIsSixFires(c: Clock)
    requires c.intervals > 0 && c.progressTicker >= 6 && c.tick == TICK
    ensures Fires(c, 5).timer == c.timer && Fires(c, 5).tick == 0
    ensures Fires(c, 6).timer == c.timer - 1 && Fires(c, 6).tick == TICK
  {
    var c1 := Fire(c);
    var c2 := Fire(c1);
    var c3 := Fire(c2);
    var c4 := Fire(c3);
    var c5 := Fire(c4);
    assert Fires(c5, 0) == c5;
    assert Fires(c4, 1) == c5;
    assert Fires(c3, 2) == c5;
    assert Fires(c2, 3) == c5;
    assert Fires(c1, 4) == c5;
    FiresAdd(c, 5, 1);
    assert Fires(c5, 1) == Fire(c5);
  }

  /** From a full fine tick, 6 * k runs take exactly k seconds off the
      coarse timer and leave the fine tick full. */
  lemma {:induction false} SecondsElapse(c: Clock, k: nat)
    requires c.intervals > 0 && c.progressTicker >= 6 * k && c.tick == TICK
    ensures Fires(c, 6 * k).timer == c.timer - k && Fires(c, 6 * k).tick == TICK
    decreases k
  {
    if k > 0 {
      OneSecondIsSixFires(c);
      FiresAdd(c, 6, 6 * (k - 1));
      SecondsElapse(Fires(c, 6), k - 1);
    }
  }

  /** While the ticker drains, it never runs ahead of what the coarse timer
      can pay for: each coarse second the remaining runs will take off is
      still on the timer, so the timer cannot go below zero. */
  predicate Draining(c: Clock) {
    0 <= c.tick <= TICK && c.progressTicker >= 0 && c.timer >= 0 &&
    c.progressTicker - c.tick <= 6 * c.timer
  }

  /** Every edit puts the countdown in a draining state (for a non-negative
      duration). */
  lemma RefillDrains(c: Clock, fullTime: int)
    requires fullTime >= 0 && 0 <= c.tick <= TICK
    ensures Draining(Refill(c, fullTime))
  {
  }

  /** A run of the held callback keeps the countdown draining. */
  lemma FireKeepsDraining(c: Clock)
    requires Draining(c) && NoLeak(c) && c.handle
    ensures Draining(Fire(c)) && NoLeak(Fire(c))
  {
  }

  /** From a draining state with its callback held, the countdown reaches
      zero after as many runs as the ticker shows, with the coarse timer
      still non-negative, and the next run expires and clears the callback. */
  lemma {:induction false} DrainThenExpire(c: Clock)
    requires Draining(c) && NoLeak(c) && c.handle
    ensures var d := Fires(c, c.progressTicker);
            Draining(d) && d.progressTicker == 0 && Expiring(d) &&
            Fire(d).intervals == 0 && !Fire(d).handle && Fire(d).timer == d.timer
    decreases c.progressTicker
  {
    if c.progressTicker > 0 {
      FireKeepsDraining(c);
      DrainThenExpire(Fire(c));
      FiresAdd(c, 1, c.progressTicker - 1);
      assert Fires(c, 1) == Fire(c) by {
        assert Fires(Fire(c), 0) == Fire(c);
      }
    }
  }

  /** A callback whose handle `startTimer` overwrote is never cleared: while
      no handle is held, its runs skip the expiry branch and drive the
      ticker below zero, and it stays scheduled. */
  lemma OrphanRunsPastZero(c: Clock)
    requires c.intervals > 0 && !c.handle && c.progressTicker <= 0
    ensures Fire(c).progressTicker < 0 && Fire(c).intervals == c.intervals
  {
  }
}
