/**
 * The announcement countdown (src/components/Countdown.tsx). The clock and date parsing are outside
 * the model: each evaluation receives `diff`, the whole seconds from now to the announcement.
 */
module Countdown {

  datatype TimeLeft = TimeLeft(days: int, hours: int, minutes: int, seconds: int)

  const Zero := TimeLeft(0, 0, 0, 0)

  const SecondsPerDay := 86400
  const SecondsPerHour := 3600
  const SecondsPerMinute := 60

  /** The number of seconds a time-left value stands for. */
  function TotalSeconds(t: TimeLeft): int {
    t.days * SecondsPerDay + t.hours * SecondsPerHour + t.minutes * SecondsPerMinute + t.seconds
  }

  /** Days unbounded, hours, minutes and seconds each below its unit. */
  predicate InRange(t: TimeLeft) {
    t.days >= 0 && 0 <= t.hours < 24 && 0 <= t.minutes < 60 && 0 <= t.seconds < 60
  }

  /** Quotient and remainder are determined by `n == q * m + r` with `0 <= r < m`. */
  lemma DivModUnique(n: int, m: int, q: int, r: int)
    requires m > 0 && 0 <= r < m && n == q * m + r
    ensures n / m == q && n % m == r
  {
    var q', r' := n / m, n % m;
    assert q' * m + r' == n;
    assert (q - q') * m == r' - r by {
      assert (q - q') * m == q * m - q' * m;
    }
    NonZeroMultiple(q - q', m);
  }

  /** A non-zero multiple of `m` is at least `m` away from zero. */
  lemma NonZeroMultiple(k: int, m: int)
    requires m > 0
    ensures k == 0 || k * m >= m || k * m <= -m
  {
    if k >= 1 {
      assert k * m == (k - 1) * m + m;
      assert (k - 1) * m >= 0;
    } else if k <= -1 {
      assert k * m == (k + 1) * m - m;
      assert (k + 1) * m <= 0;
    }
  }

  /**
   * `calculateTimeLeft`: all zeros once the announcement time has come, and otherwise the split of
   * `diff` into days, hours, minutes and seconds, which is never all zeros.
   */
  function CalculateTimeLeft(diff: int): (t: TimeLeft)
    ensures diff <= 0 ==> t == Zero
    ensures diff > 0 ==> InRange(t) && TotalSeconds(t) == diff && t != Zero
  {
    if diff <= 0 then Zero
    else
      var t := TimeLeft(diff / SecondsPerDay,
                        (diff % SecondsPerDay) / SecondsPerHour,
                        (diff % SecondsPerHour) / SecondsPerMinute,
                        diff % SecondsPerMinute);
      SplitAddsUp(diff);
      t
  }

  /** The source's three remainders nest: hours, minutes and seconds add back up to `diff`. */
  lemma SplitAddsUp(diff: int)
    requires diff > 0
    ensures diff / SecondsPerDay * SecondsPerDay
            + (diff % SecondsPerDay) / SecondsPerHour * SecondsPerHour
            + (diff % SecondsPerHour) / SecondsPerMinute * SecondsPerMinute
            + diff % SecondsPerMinute == diff
  {
    var d, rd := diff / 86400, diff % 86400;
    var h, rh := rd / 3600, rd % 3600;
    DivModUnique(diff, 3600, d * 24 + h, rh);
    var m, rm := rh / 60, rh % 60;
    DivModUnique(diff, 60, (d * 24 + h) * 60 + m, rm);
  }

  /** Every in-range, non-zero value is what `CalculateTimeLeft` gives for its total. */
  lemma SplitOfTotal(t: TimeLeft)
    requires InRange(t) && t != Zero
    ensures TotalSeconds(t) > 0 && CalculateTimeLeft(TotalSeconds(t)) == t
  {
    var n := TotalSeconds(t);
    var below := t.hours * 3600 + t.minutes * 60 + t.seconds;
    DivModUnique(n, 86400, t.days, below);
    DivModUnique(below, 3600, t.hours, t.minutes * 60 + t.seconds);
    DivModUnique(n, 3600, t.days * 24 + t.hours, t.minutes * 60 + t.seconds);
    DivModUnique(t.minutes * 60 + t.seconds, 60, t.minutes, t.seconds);
    DivModUnique(n, 60, (t.days * 24 + t.hours) * 60 + t.minutes, t.seconds);
  }

  /** The component's state, updated at mount and on every one-second tick. */
  class CountdownState {
    var timeLeft: TimeLeft
    var isExpired: bool

    constructor()
      ensures timeLeft == Zero && !isExpired
    {
      timeLeft, isExpired := Zero, false;
    }

    /**
     * One evaluation of `calculateTimeLeft`: the display takes its result, and a non-positive `diff`
     * sets the expired flag, which nothing ever clears.
     */
    method Tick(diff: int)
      modifies this
      ensures timeLeft == CalculateTimeLeft(diff)
      ensures isExpired == (old(isExpired) || diff <= 0)
    {
      if diff <= 0 {
        isExpired := true;
      }
      timeLeft := CalculateTimeLeft(diff);
    }
  }
}
