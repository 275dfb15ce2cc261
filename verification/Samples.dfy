/** The numbers that aggregators see: field values of the metrics of a series. */
module Samples {
  import opened Options

  /** A field value. */
  datatype Value = Float(x: real) | Int(n: int) | Unsigned(u: nat) | Other

  /** A value as a number; aggregators differ in whether they take unsigned integers. */
  function Convert(unsigned: bool, v: Value): Option<real> {
    match v
    case Float(x) => Some(x)
    case Int(n) => Some(n as real)
    case Unsigned(u) => if unsigned then Some(u as real) else None
    case Other => None
  }

  /** A series: what the hash of a metric identifies. */
  datatype Series = Series(name: string, tags: map<string, string>)

  datatype Metric = Metric(series: Series, fields: map<string, Value>)

  function Countable(unsigned: bool, v: Value): seq<real> {
    if Convert(unsigned, v).Some? then [Convert(unsigned, v).value] else []
  }

  /** Some metric of the series had the field. */
  ghost predicate Seen(history: seq<Metric>, s: Series, f: string) {
    history != [] &&
    (Seen(history[..|history| - 1], s, f) || (history[|history| - 1].series == s && f in history[|history| - 1].fields))
  }

  /** The countable values of a field over a history, in order. */
  ghost function Values(unsigned: bool, history: seq<Metric>, s: Series, f: string): seq<real> {
    if history == [] then []
    else
      var m := history[|history| - 1];
      Values(unsigned, history[..|history| - 1], s, f) +
        if m.series == s && f in m.fields then Countable(unsigned, m.fields[f]) else []
  }

  /** What one metric contributes: a float its value, an integer the same number, and an unsigned one if it is taken. */
  lemma ValuesOfOne(unsigned: bool, m: Metric, f: string)
    requires f in m.fields
    ensures var xs := Values(unsigned, [m], m.series, f);
      match m.fields[f]
      case Float(x) => xs == [x]
      case Int(n) => xs == [n as real]
      case Unsigned(u) => xs == if unsigned then [u as real] else []
      case Other => xs == []
    ensures forall s, g :: s != m.series || g !in m.fields ==> Values(unsigned, [m], s, g) == []
  {
    assert [m][..0] == [];
  }

  lemma OneMoreMetric(unsigned: bool, history: seq<Metric>, m: Metric, s: Series, f: string)
    ensures Seen(history + [m], s, f) <==> Seen(history, s, f) || (m.series == s && f in m.fields)
    ensures Values(unsigned, history + [m], s, f) ==
      Values(unsigned, history, s, f) + if m.series == s && f in m.fields then Countable(unsigned, m.fields[f]) else []
  {
    assert (history + [m])[..|history|] == history;
  }

  lemma {:induction false} UnseenHasNoValues(unsigned: bool, history: seq<Metric>, s: Series, f: string)
    ensures Seen(history, s, f) || Values(unsigned, history, s, f) == []
  {
    if history != [] {
      UnseenHasNoValues(unsigned, history[..|history| - 1], s, f);
    }
  }
}
