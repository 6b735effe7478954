/** The countdown molecule: once a second it splits the milliseconds left until the
    target date into days, hours, minutes and seconds. */
module CountdownTimer {

  const MsPerSecond := 1000
  const MsPerMinute := 60 * MsPerSecond
  const MsPerHour := 60 * MsPerMinute
  const MsPerDay := 24 * MsPerHour

  datatype TimeLeft = TimeLeft(days: int, hours: int, minutes: int, seconds: int)

  /** The milliseconds a time left stands for, to the second. */
  function Millis(t: TimeLeft): int
  {
    t.days * MsPerDay + t.hours * MsPerHour + t.minutes * MsPerMinute + t.seconds * MsPerSecond
  }

  /** Each field within its clock range. */
  predicate InRange(t: TimeLeft)
  {
    t.days >= 0 && 0 <= t.hours < 24 && 0 <= t.minutes < 60 && 0 <= t.seconds < 60
  }

  /** The interval callback's arithmetic: all zero once the target is reached,
      otherwise whole days, then the hours, minutes and seconds of the rest. */
  function Decompose(difference: int): (t: TimeLeft)
    ensures InRange(t)
    ensures difference <= 0 ==> t == TimeLeft(0, 0, 0, 0)
    ensures difference > 0 ==> Millis(t) <= difference < Millis(t) + MsPerSecond
  {
    if difference > 0 then
      var days := difference / MsPerDay;
      var hours := (difference % MsPerDay) / MsPerHour;
      var minutes := (difference % MsPerHour) / MsPerMinute;
      var seconds := (difference % MsPerMinute) / MsPerSecond;
      SplitBounds(difference);
      TimeLeft(days, hours, minutes, seconds)
    else TimeLeft(0, 0, 0, 0)
  }

  /** The nested remainders of a positive difference recompose it to the second. */
  lemma SplitBounds(d: int)
    requires d > 0
    ensures 0 <= (d % MsPerDay) / MsPerHour < 24
    ensures 0 <= (d % MsPerHour) / MsPerMinute < 60
    ensures 0 <= (d % MsPerMinute) / MsPerSecond < 60
    ensures var m := (d / MsPerDay) * MsPerDay + ((d % MsPerDay) / MsPerHour) * MsPerHour
                   + ((d % MsPerHour) / MsPerMinute) * MsPerMinute + ((d % MsPerMinute) / MsPerSecond) * MsPerSecond;
            m <= d < m + MsPerSecond
  {
    var dayRest := d % MsPerDay;
    assert d == (d / MsPerDay) * MsPerDay + dayRest;
    var hourRest := d % MsPerHour;
    assert dayRest == (dayRest / MsPerHour) * MsPerHour + hourRest by {
      ModOfMod(d, MsPerHour, 24);
    }
    var minuteRest := d % MsPerMinute;
    assert hourRest == (hourRest / MsPerMinute) * MsPerMinute + minuteRest by {
      ModOfMod(d, MsPerMinute, 60);
    }
    assert minuteRest == (minuteRest / MsPerSecond) * MsPerSecond + d % MsPerSecond by {
      ModOfMod(d, MsPerSecond, 60);
    }
  }

  /** Taking a remainder by `unit * k` and then by `unit` is taking it by `unit`. */
  lemma ModOfMod(d: int, unit: int, k: int)
    requires unit > 0 && k > 0
    ensures (d % (unit * k)) % unit == d % unit
    ensures (d % (unit * k)) / unit < k
  {
    var q := d / (unit * k);
    var r := d % (unit * k);
    assert d == q * (unit * k) + r;
    assert d == (q * k) * unit + r;
    var s := r / unit;
    assert r == s * unit + r % unit;
    assert d == (q * k + s) * unit + r % unit;
    DivModUnique(d, unit, q * k + s, r % unit);
    assert s * unit < k * unit;
    MulCancel(s, k, unit);
  }

  /** Quotient and remainder are the only such pair. */
  lemma DivModUnique(d: int, unit: int, q: int, r: int)
    requires unit > 0 && 0 <= r < unit && d == q * unit + r
    ensures d % unit == r && d / unit == q
  {
    var q0, r0 := d / unit, d % unit;
    assert (q0 - q) * unit == r - r0;
    SmallMultiple(q0 - q, unit);
  }

  lemma MulCancel(s: int, k: int, u: int)
    requires u > 0 && s * u < k * u
    ensures s < k
  {
    assert (k - s) * u > 0;
  }

  /** The only multiple of `u` strictly between `-u` and `u` is 0. */
  lemma SmallMultiple(a: int, u: int)
    requires u > 0 && -u < a * u < u
    ensures a == 0
  {
    MulCancel(a, 1, u);
    MulCancel(-1, a, u);
  }

  /** Any in-range split of a positive difference that recomposes it to the second
      is the one the timer shows. */
  lemma DecomposeUnique(difference: int, t: TimeLeft)
    requires difference > 0 && InRange(t)
    requires Millis(t) <= difference < Millis(t) + MsPerSecond
    ensures t == Decompose(difference)
  {
    FieldsDetermined(difference, t);
    FieldsDetermined(difference, Decompose(difference));
  }

  /** A time left in range that matches `d` to the second has each field fixed by `d`,
      one unit after the other. */
  lemma FieldsDetermined(d: int, t: TimeLeft)
    requires InRange(t) && Millis(t) <= d < Millis(t) + MsPerSecond
    ensures t.days == d / MsPerDay
    ensures var rd := d - t.days * MsPerDay; t.hours == rd / MsPerHour
    ensures var rh := d - t.days * MsPerDay - t.hours * MsPerHour; t.minutes == rh / MsPerMinute
    ensures var rm := d - t.days * MsPerDay - t.hours * MsPerHour - t.minutes * MsPerMinute; t.seconds == rm / MsPerSecond
  {
    var rd := d - t.days * MsPerDay;
    DivModUnique(d, MsPerDay, t.days, rd);
    var rh := rd - t.hours * MsPerHour;
    DivModUnique(rd, MsPerHour, t.hours, rh);
    var rm := rh - t.minutes * MsPerMinute;
    DivModUnique(rh, MsPerMinute, t.minutes, rm);
    DivModUnique(rm, MsPerSecond, t.seconds, rm - t.seconds * MsPerSecond);
  }


  /** The four boxes, left to right. */
  function Units(t: TimeLeft): (units: seq<(string, int)>)
    ensures |units| == 4
    ensures units[0] == ("Days", t.days) && units[1] == ("Hours", t.hours)
    ensures units[2] == ("Minutes", t.minutes) && units[3] == ("Seconds", t.seconds)
  {
    [("Days", t.days), ("Hours", t.hours), ("Minutes", t.minutes), ("Seconds", t.seconds)]
  }

  class Timer {
    /** The component's `timeLeft` state. */
    var timeLeft: TimeLeft

    constructor ()
      ensures timeLeft == TimeLeft(0, 0, 0, 0)
    {
      timeLeft := TimeLeft(0, 0, 0, 0);
    }

    /** One interval callback, with the clock reading and the target date in milliseconds. */
    method Tick(now: int, target: int)
      modifies this
      ensures timeLeft == Decompose(target - now)
      ensures InRange(timeLeft)
    {
      timeLeft := Decompose(target - now);
    }
  }
}
