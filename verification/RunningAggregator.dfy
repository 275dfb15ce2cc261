/** `internal/models/running_aggregator.go`: windows that follow each other, and what falls into them. */
module RunningAggregator {
  import opened Windows

  /** Durations of the configuration, and whether aggregated metrics are dropped. */
  datatype Config = Config(period: int, delay: int, grace: int, dropOriginal: bool)

  /** A metric after the filters, with its time. */
  datatype Metric = Metric(id: nat, time: Time)

  /**
    An aggregator over time: its window, the metrics it took in since the last push, what each
    push was made of, all metrics taken in, and the metrics left out as too old or too new.
  */
  datatype State = State(start: Time, end: Time, pending: seq<Metric>, pushed: seq<seq<Metric>>,
                         taken: seq<Metric>, missed: seq<Metric>, filtered: nat)

  /** The window is widened by the grace period in front and the delay behind. */
  predicate Within(m: Metric, start: Time, end: Time, c: Config) {
    !m.time.Before(start.Add(-c.grace)) && !m.time.After(end.Add(c.delay))
  }

  datatype Step = Add(m: Metric, selected: bool, hasFields: bool) | Push

  /** What the filters select and leave fields in is taken in if it lies in the window. */
  function Do(s: State, c: Config, step: Step): State {
    match step
    case Add(m, selected, hasFields) =>
      if !selected then s
      else if !hasFields then s.(filtered := s.filtered + 1)
      else if !Within(m, s.start, s.end, c) then s.(missed := s.missed + [m])
      else s.(pending := s.pending + [m], taken := s.taken + [m])
    case Push =>
      s.(start := s.end, end := s.end.Add(c.period), pushed := s.pushed + [s.pending], pending := [])
  }

  function Begin(window: (Time, Time)): State {
    State(window.0, window.1, [], [], [], [], 0)
  }

  function Run(s: State, c: Config, steps: seq<Step>): State {
    if steps == [] then s else Do(Run(s, c, steps[..|steps| - 1]), c, steps[|steps| - 1])
  }

  function Join(batches: seq<seq<Metric>>): seq<Metric> {
    if batches == [] then [] else Join(batches[..|batches| - 1]) + batches[|batches| - 1]
  }

  /** The window after a number of pushes. */
  function WindowAt(window: (Time, Time), period: int, k: nat): (Time, Time) {
    (window.0.Add(k * period), window.1.Add(k * period))
  }

  ghost predicate AllWithin(ms: seq<Metric>, window: (Time, Time), c: Config) {
    forall i :: 0 <= i < |ms| ==> Within(ms[i], window.0, window.1, c)
  }

  ghost predicate Inv(s: State, c: Config, first: (Time, Time)) {
    && (s.start, s.end) == WindowAt(first, c.period, |s.pushed|)
    && s.taken == Join(s.pushed) + s.pending
    && AllWithin(s.pending, (s.start, s.end), c)
    && forall k :: 0 <= k < |s.pushed| ==> AllWithin(s.pushed[k], WindowAt(first, c.period, k), c)
  }

  lemma NextWindow(first: (Time, Time), period: int, k: nat)
    requires first.0.Add(period) == first.1
    ensures WindowAt(first, period, k + 1).0 == WindowAt(first, period, k).1
    ensures WindowAt(first, period, k + 1).1 == WindowAt(first, period, k).1.Add(period)
    ensures WindowAt(first, period, 0) == first
  {
    assert (k + 1) * period == k * period + period;
  }

  lemma StepKeepsInv(s: State, c: Config, first: (Time, Time), step: Step)
    requires Inv(s, c, first) && first.0.Add(c.period) == first.1
    ensures Inv(Do(s, c, step), c, first)
  {
    hide Within, WindowAt;
    NextWindow(first, c.period, |s.pushed|);
    if step.Push? {
      var now := Do(s, c, step);
      assert now.pushed[..|s.pushed|] == s.pushed;
      assert Join(now.pushed) == Join(s.pushed) + s.pending;
      assert now.taken == Join(now.pushed) + now.pending;
    } else {
      assert Join(s.pushed) + (s.pending + [step.m]) == Join(s.pushed) + s.pending + [step.m];
    }
  }

  lemma {:induction false} RunKeepsInv(c: Config, first: (Time, Time), steps: seq<Step>)
    requires first.0.Add(c.period) == first.1
    ensures Inv(Run(Begin(first), c, steps), c, first)
  {
    if steps == [] {
      NextWindow(first, c.period, 0);
    } else {
      RunKeepsInv(c, first, steps[..|steps| - 1]);
      StepKeepsInv(Run(Begin(first), c, steps[..|steps| - 1]), c, first, steps[|steps| - 1]);
    }
  }

  /** How often something was pushed in a run. */
  function Pushes(steps: seq<Step>): nat {
    if steps == [] then 0 else Pushes(steps[..|steps| - 1]) + if steps[|steps| - 1].Push? then 1 else 0
  }

  lemma {:induction false} PushesCount(s: State, c: Config, steps: seq<Step>)
    ensures |Run(s, c, steps).pushed| == |s.pushed| + Pushes(steps)
  {
    if steps != [] {
      PushesCount(s, c, steps[..|steps| - 1]);
    }
  }

  /**
    Over every run from the window that an agent starts with: every metric taken in goes into
    exactly one push or is still to come, in order; a push holds only metrics of its own
    window; and after a number of pushes the window has moved on by that many periods.
  */
  lemma EveryMetricOnce(c: Config, start: Time, round: bool, steps: seq<Step>)
    requires c.period > 0
    ensures var first := UpdateWindow(start, round, c.period);
      var s := Run(Begin(first), c, steps);
      && s.taken == Join(s.pushed) + s.pending
      && |s.pushed| == Pushes(steps)
      && (s.start, s.end) == WindowAt(first, c.period, Pushes(steps))
      && (forall k :: 0 <= k < |s.pushed| ==> AllWithin(s.pushed[k], WindowAt(first, c.period, k), c))
      && AllWithin(s.pending, (s.start, s.end), c)
      && (steps != [] && steps[|steps| - 1].Push? ==> s.taken == Join(s.pushed))
  {
    hide WindowAt, UpdateWindow;
    var first := UpdateWindow(start, round, c.period);
    FirstWindow(start, round, c.period);
    RunKeepsInv(c, first, steps);
    PushesCount(Begin(first), c, steps);
    var s := Run(Begin(first), c, steps);
    if steps != [] && steps[|steps| - 1].Push? {
      assert s.pending == [];
      assert Join(s.pushed) + [] == Join(s.pushed);
    }
  }

  /** The times that a window lets in: by the wall clock, or by the monotonic clock if all of them were read from it. */
  lemma WithinIs(m: Metric, start: Time, end: Time, c: Config)
    ensures m.time.mono.None? || (start.mono.None? && end.mono.None?) ==>
      (Within(m, start, end, c) <==> start.wall - c.grace <= m.time.wall <= end.wall + c.delay)
    ensures m.time.mono.Some? && start.mono.Some? && end.mono.Some? ==>
      (Within(m, start, end, c) <==> start.mono.value - c.grace <= m.time.mono.value <= end.mono.value + c.delay)
  {
  }

  /**
    Exactly which metrics are taken in, in plain times. After a number of pushes the window is
    that many periods after the first, and lets in what is at most the grace period older or the
    delay newer. The monotonic clock decides if the metric was read from it and the window, which
    then is not rounded, starts from a reading of it; otherwise the wall clock does.
  */
  lemma TakenExactly(c: Config, start: Time, round: bool, steps: seq<Step>, m: Metric, selected: bool, hasFields: bool)
    requires c.period > 0
    ensures var first := UpdateWindow(start, round, c.period);
      var s, s' := Run(Begin(first), c, steps), Run(Begin(first), c, steps + [Add(m, selected, hasFields)]);
      var shift := Pushes(steps) * c.period;
      var inWindow :=
        if !round && start.mono.Some? && m.time.mono.Some? then
          var since := start.mono.value + shift;
          since - c.grace <= m.time.mono.value <= since + c.period + c.delay
        else
          first.0.wall + shift - c.grace <= m.time.wall <= first.1.wall + shift + c.delay;
      && s'.taken == s.taken + (if selected && hasFields && inWindow then [m] else [])
      && s'.missed == s.missed + (if selected && hasFields && !inWindow then [m] else [])
      && s'.filtered == s.filtered + (if selected && !hasFields then 1 else 0)
      && s'.pushed == s.pushed
  {
    hide UpdateWindow, Within, Run;
    var first := UpdateWindow(start, round, c.period);
    var s := Run(Begin(first), c, steps);
    EveryMetricOnce(c, start, round, steps);
    FirstWindow(start, round, c.period);
    WindowClock(start, round, c.period);
    WithinIs(m, s.start, s.end, c);
    RunMore(Begin(first), c, steps, Add(m, selected, hasFields));
  }

  lemma RunMore(s: State, c: Config, steps: seq<Step>, step: Step)
    ensures Run(s, c, steps + [step]) == Do(Run(s, c, steps), c, step)
  {
    assert (steps + [step])[..|steps|] == steps;
  }

  /** The windows tile the time from the first on: each instant lies in one of them. */
  lemma WindowsTile(start: Time, round: bool, period: int, t: int) returns (k: nat)
    requires period > 0 && t >= UpdateWindow(start, round, period).0.wall
    ensures var first := UpdateWindow(start, round, period);
      && WindowAt(first, period, k).0.wall <= t < WindowAt(first, period, k).1.wall
      && forall j: nat :: WindowAt(first, period, j).0.wall <= t < WindowAt(first, period, j).1.wall ==> j == k
  {
    var first := UpdateWindow(start, round, period);
    FirstWindow(start, round, period);
    var d := t - first.0.wall;
    k := d / period;
    assert d == k * period + d % period;
    forall j: nat | WindowAt(first, period, j).0.wall <= t < WindowAt(first, period, j).1.wall ensures j == k {
      SameTile(d, period, j, k);
    }
  }

  lemma SameTile(d: int, period: int, j: nat, k: nat)
    requires period > 0 && j * period <= d < j * period + period && k * period <= d < k * period + period
    ensures j == k
  {
    assert j < k ==> (j + 1) * period <= k * period;
    assert j > k ==> j * period >= (k + 1) * period;
  }

  class Aggregator {
    const config: Config
    var periodStart: Time
    var periodEnd: Time
    var metricsFiltered: nat
    var metricsDropped: nat
    var held: seq<Metric>
    ghost var state: State

    /** `held` stands for the plugin: what it took in since it was last reset. */
    ghost predicate Valid()
      reads this
    {
      && state.pending == held
      && state.start == periodStart && state.end == periodEnd
      && state.filtered == metricsFiltered && |state.missed| == metricsDropped
    }

    /** A new aggregator gets its first window from the agent. */
    constructor (config: Config, window: (Time, Time))
      ensures Valid() && this.config == config && state == Begin(window)
    {
      this.config := config;
      periodStart, periodEnd := window.0, window.1;
      metricsFiltered, metricsDropped := 0, 0;
      held := [];
      state := Begin(window);
    }

    method UpdateRange(start: Time, until: Time)
      modifies `periodStart, `periodEnd
      ensures periodStart == start && periodEnd == until
    {
      periodStart := start;
      periodEnd := until;
    }

    /** Take in a metric; true if the original is to be dropped. */
    method Add(m: Metric, selected: bool, hasFields: bool) returns (drop: bool)
      requires Valid()
      modifies this
      ensures Valid() && state == Do(old(state), config, Step.Add(m, selected, hasFields))
      ensures drop == (selected && config.dropOriginal)
    {
      ghost var next := Do(state, config, Step.Add(m, selected, hasFields));
      if !selected {
        return false;
      }
      if !hasFields {
        metricsFiltered := metricsFiltered + 1;
        state := next;
        return config.dropOriginal;
      }
      if m.time.Before(periodStart.Add(-config.grace)) || m.time.After(periodEnd.Add(config.delay)) {
        metricsDropped := metricsDropped + 1;
        state := next;
        return config.dropOriginal;
      }
      held := held + [m];
      state := next;
      return config.dropOriginal;
    }

    /** Push what was taken in and go on to the next window. */
    method Push() returns (batch: seq<Metric>)
      requires Valid()
      modifies this
      ensures Valid() && state == Do(old(state), config, Step.Push)
      ensures batch == old(held) == state.pushed[|state.pushed| - 1]
    {
      var since := periodEnd;
      var until := periodEnd.Add(config.period);
      UpdateRange(since, until);
      batch := held;
      held := [];
      state := Do(state, config, Step.Push);
    }
  }
}
