/** Aligned times of `internal/internal.go` and the first window of `agent/agent.go`. */
module Windows {
  import opened Options

  /**
    A time of Go: nanoseconds since the zero time on the wall clock and, for a time read from
    the clock, a reading of the monotonic clock. Equality of times compares both.
  */
  datatype Time = Time(wall: int, mono: Option<int>) {

    function Add(d: int): Time {
      Time(wall + d, if mono.Some? then Some(mono.value + d) else None)
    }

    /** Down to a multiple of a positive duration; the monotonic reading is dropped in any case. */
    function Truncate(d: int): Time {
      Time(if d <= 0 then wall else wall - wall % d, None)
    }

    /** Monotonic readings decide if both times have one. */
    function Sub(u: Time): int {
      if mono.Some? && u.mono.Some? then mono.value - u.mono.value else wall - u.wall
    }

    predicate Before(u: Time) {
      Sub(u) < 0
    }

    predicate After(u: Time) {
      Sub(u) > 0
    }
  }

  function AlignTime(tm: Time, interval: int): Time {
    var truncated := tm.Truncate(interval);
    if truncated == tm then tm else truncated.Add(interval)
  }

  function AlignDuration(tm: Time, interval: int): int {
    AlignTime(tm, interval).Sub(tm)
  }

  ghost predicate Aligned(t: int, interval: int)
    requires interval > 0
  {
    t % interval == 0
  }

  lemma NextMultiple(t: int, d: int)
    requires d > 0
    ensures var down := t - t % d;
      down % d == 0 && (down + d) % d == 0 && down <= t < down + d
    ensures t % d == d - 1 ==> (t + 1) % d == 0
    ensures t % d < d - 1 ==> (t + 1) % d == t % d + 1
  {
    var q, r := t / d, t % d;
    assert t == q * d + r;
    Remainder(q, d, 0);
    Remainder(q + 1, d, 0);
    assert (q + 1) * d == q * d + d;
    if r < d - 1 {
      Remainder(q, d, r + 1);
    }
  }

  lemma Remainder(q: int, d: int, r: int)
    requires 0 <= r < d
    ensures (q * d + r) % d == r
  {
    var m := q * d + r;
    var k := m / d - q;
    assert m == d * (m / d) + m % d;
    assert d * (m / d) == d * q + d * k;
    assert d * k == r - m % d;
    assert k >= 1 ==> d * k >= d;
    assert k <= -1 ==> d * k <= -d;
  }

  /**
    The aligned time is a multiple of the interval less than one interval ahead, or exactly one
    ahead. The promise that an aligned time is returned as it is, and that the duration until
    then is zero, is kept if and only if the time has no monotonic reading.
  */
  lemma AlignTimeIs(tm: Time, interval: int)
    requires interval > 0
    ensures var t := AlignTime(tm, interval);
      && Aligned(t.wall, interval)
      && (if Aligned(tm.wall, interval) && tm.mono.None? then t == tm
          else t == Time(tm.wall - tm.wall % interval + interval, None))
    ensures AlignDuration(tm, interval) == AlignTime(tm, interval).wall - tm.wall
    ensures 0 <= AlignDuration(tm, interval) <= interval
    ensures AlignDuration(tm, interval) == 0 <==> Aligned(tm.wall, interval) && tm.mono.None?
    ensures AlignDuration(tm, interval) == interval <==> Aligned(tm.wall, interval) && tm.mono.Some?
  {
    NextMultiple(tm.wall, interval);
  }

  /** The window that an aggregator starts with. */
  function UpdateWindow(start: Time, roundInterval: bool, period: int): (Time, Time) {
    var until :=
      if !roundInterval then start.Add(period)
      else
        var aligned := AlignTime(start, period);
        if aligned == start then AlignTime(start.Add(1), period) else aligned;
    (until.Add(-period), until)
  }

  /** A window has readings of the monotonic clock if and only if it starts at a time that has one, without rounding. */
  lemma WindowClock(start: Time, roundInterval: bool, period: int)
    requires period > 0
    ensures var (since, until) := UpdateWindow(start, roundInterval, period);
      if !roundInterval && start.mono.Some? then
        since.mono == start.mono && until.mono == Some(start.mono.value + period)
      else since.mono.None? && until.mono.None?
  {
    AlignTimeIs(start, period);
    AlignTimeIs(start.Add(1), period);
  }

  /**
    The first window is one period long and holds the start, which a rounded window does not
    end on even if it is aligned, with or without a monotonic reading. A rounded window ends
    on a multiple of the period.
  */
  lemma FirstWindow(start: Time, roundInterval: bool, period: int)
    requires period > 0
    ensures var (since, until) := UpdateWindow(start, roundInterval, period);
      && since.wall == until.wall - period && since.wall <= start.wall < until.wall
      && since == until.Add(-period) && since.Add(period) == until
      && (roundInterval ==> Aligned(until.wall, period) && Aligned(since.wall, period))
      && (!roundInterval ==> since == start)
  {
    NextMultiple(start.wall, period);
    NextMultiple(start.wall + 1, period);
    AlignTimeIs(start, period);
    AlignTimeIs(start.Add(1), period);
  }
}
