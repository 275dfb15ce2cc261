/** The statistics of `plugins/aggregators/basicstats/basicstats.go`, over exact numbers. */
module BasicStats {
  import opened Options
  import opened Samples

  /** What is kept of a field; `first` is its first value. */
  datatype Stats = Stats(count: real, min: real, max: real, sum: real, mean: real, diff: real, m2: real, first: real)

  // ---------- what the statistics mean ----------

  ghost function Sum(xs: seq<real>): real {
    if xs == [] then 0.0 else Sum(xs[..|xs| - 1]) + xs[|xs| - 1]
  }

  ghost function Squares(xs: seq<real>): real {
    if xs == [] then 0.0 else Squares(xs[..|xs| - 1]) + xs[|xs| - 1] * xs[|xs| - 1]
  }

  ghost function Times(a: real, b: real): real {
    a * b
  }

  /** The sum of the squared distances from a center. */
  ghost function Spread(xs: seq<real>, c: real): real {
    if xs == [] then 0.0 else Spread(xs[..|xs| - 1], c) + Times(xs[|xs| - 1] - c, xs[|xs| - 1] - c)
  }

  ghost predicate Least(min: real, xs: seq<real>) {
    min in xs && forall i :: 0 <= i < |xs| ==> min <= xs[i]
  }

  ghost predicate Greatest(max: real, xs: seq<real>) {
    max in xs && forall i :: 0 <= i < |xs| ==> xs[i] <= max
  }

  ghost predicate Moments(count: real, sum: real, mean: real, m2: real, xs: seq<real>) {
    count == |xs| as real && sum == Sum(xs) && mean * count == Sum(xs) && m2 == Spread(xs, mean)
  }

  /** The statistics are those of some values, whatever order of updates led to them. */
  ghost predicate Describes(st: Stats, xs: seq<real>) {
    && xs != [] && Moments(st.count, st.sum, st.mean, st.m2, xs)
    && Least(st.min, xs) && Greatest(st.max, xs)
    && st.first == xs[0] && st.diff == xs[|xs| - 1] - xs[0]
  }

  // ---------- updates ----------

  function First(x: real): Stats {
    Stats(1.0, x, x, x, x, 0.0, 0.0, x)
  }

  /** One more value, by the method of Welford. */
  function Update(st: Stats, x: real): Stats
    requires st.count > 0.0
  {
    var n := st.count + 1.0;
    var delta := x - st.mean;
    var mean := st.mean + delta / n;
    var m2 := st.m2 + delta * (x - mean);
    var min := if x < st.min then x else st.min;
    var max := if !(x < st.min) && x > st.max then x else st.max;
    Stats(n, min, max, st.sum + x, mean, x - st.first, m2, st.first)
  }

  lemma FirstDescribes(x: real)
    ensures Describes(First(x), [x])
  {
    assert [x][..0] == [];
    assert Sum([x]) == x;
    assert [x][0] == x;
  }

  lemma {:induction false} SpreadExpands(xs: seq<real>, c: real)
    ensures Spread(xs, c) == Squares(xs) - 2.0 * c * Sum(xs) + |xs| as real * c * c
  {
    hide Times;
    if xs != [] {
      var init, x := xs[..|xs| - 1], xs[|xs| - 1];
      SpreadExpands(init, c);
      var n := |init| as real;
      assert |xs| as real == n + 1.0;
      ExpandStep(Squares(init), c, Sum(init), n, x);
      assert Squares(xs) == Squares(init) + x * x && Sum(xs) == Sum(init) + x;
      assert Spread(xs, c) == Spread(init, c) + Times(x - c, x - c);
    }
  }

  lemma ExpandStep(q: real, c: real, s: real, n: real, x: real)
    ensures q - 2.0 * c * s + n * c * c + Times(x - c, x - c) == q + x * x - 2.0 * c * (s + x) + (n + 1.0) * c * c
  {
  }

  lemma NextMean(n: real, m: real, x: real)
    requires n > 0.0
    ensures (m + (x - m) / (n + 1.0)) * (n + 1.0) == m * n + x
  {
    assert (x - m) / (n + 1.0) * (n + 1.0) == x - m;
  }

  /** The algebra behind Welford's update of the sum of squares. */
  lemma Welford(q: real, n: real, m: real, x: real, k: real)
    requires k * (n + 1.0) == m * n + x
    ensures q - 2.0 * m * (m * n) + n * m * m + (x - m) * (x - k)
         == q + x * x - 2.0 * k * (m * n + x) + (n + 1.0) * k * k
  {
    assert m * (k * (n + 1.0)) == m * (m * n + x);
    assert k * (k * (n + 1.0)) == k * (m * n + x);
  }

  lemma OneMore(xs: seq<real>, x: real)
    ensures Sum(xs + [x]) == Sum(xs) + x
    ensures Squares(xs + [x]) == Squares(xs) + x * x
    ensures |xs + [x]| as real == |xs| as real + 1.0
  {
    assert (xs + [x])[..|xs|] == xs;
  }

  lemma NextSpread(xs: seq<real>, m: real, x: real, k: real)
    requires m * |xs| as real == Sum(xs) && k * (|xs| as real + 1.0) == Sum(xs) + x
    ensures Spread(xs + [x], k) == Spread(xs, m) + (x - m) * (x - k)
  {
    hide Spread;
    var n := |xs| as real;
    OneMore(xs, x);
    SpreadExpands(xs, m);
    SpreadExpands(xs + [x], k);
    Welford(Squares(xs), n, m, x, k);
  }

  lemma NextExtremes(min: real, max: real, xs: seq<real>, x: real)
    requires Least(min, xs) && Greatest(max, xs)
    ensures Least(if x < min then x else min, xs + [x])
    ensures Greatest(if !(x < min) && x > max then x else max, xs + [x])
  {
    var i, j :| 0 <= i < |xs| && 0 <= j < |xs| && xs[i] == min && xs[j] == max;
    var all := xs + [x];
    assert all[i] == min && all[j] == max && all[|xs|] == x;
  }

  /** An update describes one more value. */
  lemma UpdateDescribes(st: Stats, xs: seq<real>, x: real)
    requires Describes(st, xs)
    ensures st.count > 0.0 && Describes(Update(st, x), xs + [x])
  {
    assert st.count > 0.0;
    NextUpdate(st, xs, x);
  }

  lemma NextMoments(count: real, sum: real, mean: real, m2: real, xs: seq<real>, x: real,
        count': real, sum': real, k: real, m2': real)
    requires Moments(count, sum, mean, m2, xs) && k * (count + 1.0) == mean * count + x
    requires count' == count + 1.0 && sum' == sum + x && m2' == m2 + (x - mean) * (x - k)
    ensures Moments(count', sum', k, m2', xs + [x])
  {
    hide Sum, Spread;
    OneMore(xs, x);
    NextSpread(xs, mean, x, k);
  }

  lemma NextUpdate(st: Stats, xs: seq<real>, x: real)
    requires Describes(st, xs) && st.count > 0.0
    ensures Describes(Update(st, x), xs + [x])
  {
    hide Moments, Least, Greatest, Update;
    var next, all := Update(st, x), xs + [x];
    UpdateParts(st, x);
    NextMoments(st.count, st.sum, st.mean, st.m2, xs, x, next.count, next.sum, next.mean, next.m2);
    assert all[0] == xs[0] && all[|all| - 1] == x;
    NextExtremes(st.min, st.max, xs, x);
  }

  lemma UpdateParts(st: Stats, x: real)
    requires st.count > 0.0
    ensures var next := Update(st, x);
      && next.count == st.count + 1.0 && next.sum == st.sum + x
      && next.mean * (st.count + 1.0) == st.mean * st.count + x
      && next.m2 == st.m2 + (x - st.mean) * (x - next.mean)
      && next.min == (if x < st.min then x else st.min)
      && next.max == (if !(x < st.min) && x > st.max then x else st.max)
      && next.first == st.first && next.diff == x - st.first
  {
    NextMean(st.count, st.mean, x);
  }

  // ---------- what follows ----------

  lemma {:induction false} SumBetween(xs: seq<real>, low: real, high: real)
    requires forall i :: 0 <= i < |xs| ==> low <= xs[i] <= high
    ensures low * |xs| as real <= Sum(xs) <= high * |xs| as real
  {
    if xs != [] {
      SumBetween(xs[..|xs| - 1], low, high);
      assert low * |xs| as real == low * (|xs| - 1) as real + low;
      assert high * |xs| as real == high * (|xs| - 1) as real + high;
    }
  }

  lemma {:induction false} SpreadNotNegative(xs: seq<real>, c: real)
    ensures Spread(xs, c) >= 0.0
    ensures Spread(xs, c) == 0.0 <==> forall i :: 0 <= i < |xs| ==> xs[i] == c
  {
    hide Times;
    if xs != [] {
      SpreadNotNegative(xs[..|xs| - 1], c);
      Signs(xs[|xs| - 1] - c, xs[|xs| - 1] - c);
    }
  }

  lemma Signs(a: real, b: real)
    ensures a > 0.0 && b > 0.0 ==> Times(a, b) > 0.0
    ensures a < 0.0 && b < 0.0 ==> Times(a, b) > 0.0
    ensures a == 0.0 ==> Times(a, b) == 0.0
  {
  }

  /** The mean lies between the extremes; the variance is never negative, and zero only for equal values. */
  lemma StatsAreSound(st: Stats, xs: seq<real>)
    requires Describes(st, xs)
    ensures st.min <= st.mean <= st.max
    ensures st.m2 >= 0.0 && (st.m2 == 0.0 <==> forall i :: 0 <= i < |xs| ==> xs[i] == st.mean)
    ensures st.count > 1.0 ==> Variance(st) == Spread(xs, st.mean) / (|xs| - 1) as real >= 0.0
  {
    hide Sum, Spread;
    MeanBetween(st.mean, st.min, st.max, xs);
    SpreadNotNegative(xs, st.mean);
    if st.count > 1.0 {
      NotNegative(st.m2, st.count - 1.0);
    }
  }

  lemma MeanBetween(mean: real, min: real, max: real, xs: seq<real>)
    requires xs != [] && mean * |xs| as real == Sum(xs) && Least(min, xs) && Greatest(max, xs)
    ensures min <= mean <= max
  {
    hide Sum;
    SumBetween(xs, min, max);
    Divide(min, mean, |xs| as real);
    Divide(mean, max, |xs| as real);
  }

  lemma Divide(a: real, b: real, n: real)
    requires n > 0.0 && a * n <= b * n
    ensures a <= b
  {
    assert a > b ==> (a - b) * n > 0.0;
  }

  lemma NotNegative(a: real, n: real)
    requires n > 0.0 && a >= 0.0
    ensures a / n >= 0.0
  {
  }

  /** The sample variance, told once there are two values. */
  function Variance(st: Stats): real
    requires st.count > 1.0
  {
    st.m2 / (st.count - 1.0)
  }

  /** Statistics depend on the values only: not on how they came about. */
  lemma StatsAreDetermined(a: Stats, b: Stats, xs: seq<real>)
    requires Describes(a, xs) && Describes(b, xs)
    ensures a == b
  {
    hide Sum, Spread;
    Divide(a.mean, b.mean, |xs| as real);
    Divide(b.mean, a.mean, |xs| as real);
    assert a.min == b.min && a.max == b.max;
  }

  // ---------- the aggregator ----------

  /** The cache holds the statistics of exactly the values of a history. */
  ghost predicate Summarized(cache: map<Series, map<string, Stats>>, history: seq<Metric>) {
    forall s, f ::
      if s in cache && f in cache[s] then Describes(cache[s][f], Values(true, history, s, f))
      else Values(true, history, s, f) == []
  }

  /** Statistics of the fields of one metric: those done so far have its values too. */
  ghost predicate Adding(fields: map<string, Stats>, history: seq<Metric>, m: Metric, done: set<string>) {
    forall f ::
      var xs := Values(true, if f in done then history + [m] else history, m.series, f);
      if f in fields then Describes(fields[f], xs) else xs == []
  }

  lemma AddingStarts(cache: map<Series, map<string, Stats>>, history: seq<Metric>, m: Metric)
    requires Summarized(cache, history)
    ensures Adding(if m.series in cache then cache[m.series] else map[], history, m, {})
  {
  }

  lemma AddingEnds(cache: map<Series, map<string, Stats>>, history: seq<Metric>, m: Metric, fields: map<string, Stats>)
    requires Summarized(cache, history) && Adding(fields, history, m, m.fields.Keys)
    ensures Summarized(cache[m.series := fields], history + [m])
  {
    hide Values, Describes;
    forall s, f
      ensures s != m.series || f !in m.fields ==> Values(true, history + [m], s, f) == Values(true, history, s, f)
    {
      OneMoreMetric(true, history, m, s, f);
      assert Values(true, history, s, f) + [] == Values(true, history, s, f);
    }
  }

  // ---------- what is told ----------

  datatype Stat = Count | Minimum | Maximum | Mean | Total | Variance2 | Deviation | Difference | Increase

  /** In the order in which they are pushed. */
  const ALL := [Count, Minimum, Maximum, Mean, Total, Variance2, Deviation, Difference, Increase]

  function Suffix(stat: Stat): string {
    match stat
    case Count => "_count"
    case Minimum => "_min"
    case Maximum => "_max"
    case Mean => "_mean"
    case Total => "_sum"
    case Variance2 => "_s2"
    case Deviation => "_stdev"
    case Difference => "_diff"
    case Increase => "_non_negative_diff"
  }

  /** What is told of a field, if anything; the square root is a parameter. */
  function Tell(st: Stats, stat: Stat, sqrt: real -> real): Option<real> {
    match stat
    case Count => Some(st.count)
    case Minimum => Some(st.min)
    case Maximum => Some(st.max)
    case Mean => Some(st.mean)
    case Total => Some(st.sum)
    case Variance2 => if st.count > 1.0 then Some(Variance(st)) else None
    case Deviation => if st.count > 1.0 then Some(sqrt(Variance(st))) else None
    case Difference => if st.count > 1.0 then Some(st.diff) else None
    case Increase => if st.count > 1.0 && st.diff >= 0.0 then Some(st.diff) else None
  }

  /** The sample variance by its definition. */
  ghost function SampleVariance(xs: seq<real>): real
    requires 1 < |xs|
  {
    Spread(xs, Sum(xs) / |xs| as real) / (|xs| - 1) as real
  }

  /** Variance, deviation and differences are told of two values and more, an increase if there is one. */
  ghost predicate Due(stat: Stat, xs: seq<real>) {
    match stat
    case Variance2 => 1 < |xs|
    case Deviation => 1 < |xs|
    case Difference => 1 < |xs|
    case Increase => 1 < |xs| && xs[0] <= xs[|xs| - 1]
    case _ => true
  }

  /** The number is the statistic of some values by its textbook definition. */
  ghost predicate IsStat(v: real, stat: Stat, xs: seq<real>, sqrt: real -> real)
    requires xs != [] && Due(stat, xs)
  {
    match stat
    case Count => v == |xs| as real
    case Minimum => Least(v, xs)
    case Maximum => Greatest(v, xs)
    case Mean => v == Sum(xs) / |xs| as real
    case Total => v == Sum(xs)
    case Variance2 => v == SampleVariance(xs) >= 0.0
    case Deviation => v == sqrt(SampleVariance(xs))
    case Difference => v == xs[|xs| - 1] - xs[0]
    case Increase => v == xs[|xs| - 1] - xs[0] >= 0.0
  }

  /** What is told of a field is what is due, and it is true. */
  lemma TellsStat(st: Stats, xs: seq<real>, stat: Stat, sqrt: real -> real)
    requires Describes(st, xs)
    ensures xs != [] && (Tell(st, stat, sqrt).Some? <==> Due(stat, xs))
    ensures Due(stat, xs) ==> IsStat(Tell(st, stat, sqrt).value, stat, xs, sqrt)
  {
    hide Sum, Spread, Least, Greatest;
    StatsAreSound(st, xs);
    Quotient(st.mean, |xs| as real, Sum(xs));
    assert st.count > 1.0 <==> 1 < |xs|;
  }

  lemma Quotient(mean: real, n: real, sum: real)
    requires n > 0.0 && mean * n == sum
    ensures mean == sum / n
  {
  }

  // ---------- under which names ----------

  datatype Item = Item(field: string, stat: Stat, value: real)

  function Name(field: string, stat: Stat): string {
    field + Suffix(stat)
  }

  function PutItems(items: seq<Item>): map<string, real> {
    if items == [] then map[]
    else
      var item := items[|items| - 1];
      PutItems(items[..|items| - 1])[Name(item.field, item.stat) := item.value]
  }

  /** What the ends of the suffixes are. */
  lemma SuffixEnds(stat: Stat)
    ensures var t := Suffix(stat); var n := |t|;
      && 3 <= n
      && (stat == Count <==> t[n - 1] == 't')
      && (stat == Minimum || stat == Mean <==> t[n - 1] == 'n')
      && (stat == Minimum ==> t[n - 2] == 'i') && (stat == Mean ==> t[n - 2] == 'a')
      && (stat == Maximum <==> t[n - 1] == 'x')
      && (stat == Total <==> t[n - 1] == 'm')
      && (stat == Variance2 <==> t[n - 1] == '2')
      && (stat == Deviation <==> t[n - 1] == 'v')
      && (stat == Difference || stat == Increase <==> t[n - 1] == 'f')
  {
  }

  /** Names of different statistics are different, but for one pair: a difference and an increase. */
  lemma NamesClash(f: string, a: Stat, g: string, b: Stat)
    requires Name(f, a) == Name(g, b)
    ensures a == b ==> f == g
    ensures a != b ==>
      || (a == Difference && b == Increase && f == g + "_non_negative")
      || (a == Increase && b == Difference && g == f + "_non_negative")
  {
    SuffixEnds(a);
    SuffixEnds(b);
    var n := |Name(f, a)|;
    assert Name(f, a)[n - 1] == Suffix(a)[|Suffix(a)| - 1] && Name(g, b)[n - 1] == Suffix(b)[|Suffix(b)| - 1];
    assert Name(f, a)[n - 2] == Suffix(a)[|Suffix(a)| - 2] && Name(g, b)[n - 2] == Suffix(b)[|Suffix(b)| - 2];
    if a == b {
      assert Name(f, a)[..|f|] == f && Name(g, b)[..|g|] == g;
    } else if a == Difference {
      DifferenceIncrease(f, g);
    } else {
      DifferenceIncrease(g, f);
    }
  }

  lemma DifferenceIncrease(f: string, g: string)
    requires f + "_diff" == g + "_non_negative_diff"
    ensures f == g + "_non_negative"
  {
    assert "_non_negative_diff" == "_non_negative" + "_diff";
    assert g + "_non_negative_diff" == (g + "_non_negative") + "_diff";
    assert (f + "_diff")[..|f|] == f;
    assert ((g + "_non_negative") + "_diff")[..|g + "_non_negative"|] == g + "_non_negative";
  }

  /** A difference and an increase that fall on one name. */
  ghost predicate Clash(a: Item, b: Item) {
    || (a.stat == Difference && b.stat == Increase && a.field == b.field + "_non_negative")
    || (a.stat == Increase && b.stat == Difference && b.field == a.field + "_non_negative")
  }

  lemma {:induction false} LastItemStays(items: seq<Item>, i: nat)
    requires i < |items|
    requires forall j :: i < j < |items| ==> Name(items[j].field, items[j].stat) != Name(items[i].field, items[i].stat)
    ensures Name(items[i].field, items[i].stat) in PutItems(items)
    ensures PutItems(items)[Name(items[i].field, items[i].stat)] == items[i].value
  {
    hide Name;
    var n := |items| - 1;
    if i < n {
      assert forall j :: 0 <= j < n ==> items[..n][j] == items[j];
      LastItemStays(items[..n], i);
    }
  }

  ghost predicate NoTwice(items: seq<Item>) {
    forall i, j :: 0 <= i < j < |items| ==> items[i].field != items[j].field || items[i].stat != items[j].stat
  }

  /** Every statistic is found under its name, unless it is a difference or an increase that clashes. */
  lemma ItemFound(items: seq<Item>, i: nat)
    requires NoTwice(items) && i < |items| && forall j :: 0 <= j < |items| ==> !Clash(items[i], items[j])
    ensures Name(items[i].field, items[i].stat) in PutItems(items)
    ensures PutItems(items)[Name(items[i].field, items[i].stat)] == items[i].value
  {
    hide Name, PutItems;
    forall j | i < j < |items| ensures Name(items[j].field, items[j].stat) != Name(items[i].field, items[i].stat) {
      if Name(items[j].field, items[j].stat) == Name(items[i].field, items[i].stat) {
        NamesClash(items[j].field, items[j].stat, items[i].field, items[i].stat);
      }
    }
    LastItemStays(items, i);
  }

  /** Of two statistics that clash, the one that comes later is found. */
  lemma ClashLoses(items: seq<Item>, a: Item, b: Item)
    requires Clash(a, b)
    ensures PutItems(items + [a, b]) == PutItems(items)[Name(b.field, b.stat) := b.value]
  {
    var n := |items|;
    assert (items + [a, b])[..n + 1] == items + [a] && (items + [a])[..n] == items;
    ClashIsOneName(a, b);
  }

  lemma ClashIsOneName(a: Item, b: Item)
    requires Clash(a, b)
    ensures Name(a.field, a.stat) == Name(b.field, b.stat)
  {
    assert "_non_negative_diff" == "_non_negative" + "_diff";
    if a.stat == Difference {
      assert b.field + "_non_negative_diff" == (b.field + "_non_negative") + "_diff";
    } else {
      assert a.field + "_non_negative_diff" == (a.field + "_non_negative") + "_diff";
    }
  }

  /** The items are the statistics chosen that are due, each once and true, of some fields of a series. */
  ghost predicate Items(items: seq<Item>, chosen: set<Stat>, history: seq<Metric>, s: Series, sqrt: real -> real,
                        fields: set<string>) {
    && NoTwice(items)
    && (forall i :: 0 <= i < |items| ==> items[i].field in fields && TrueItem(items[i], chosen, history, s, sqrt))
    && (forall f, stat :: f in fields && stat in chosen && Due(stat, Values(true, history, s, f)) ==>
          Has(items, f, stat))
  }

  /** The items are the statistics chosen that are due, each once and true, of a series. */
  ghost predicate AllItems(items: seq<Item>, chosen: set<Stat>, history: seq<Metric>, s: Series, sqrt: real -> real) {
    && NoTwice(items)
    && (forall i :: 0 <= i < |items| ==> TrueItem(items[i], chosen, history, s, sqrt))
    && (forall f, stat ::
         Values(true, history, s, f) != [] && stat in chosen && Due(stat, Values(true, history, s, f)) ==>
           Has(items, f, stat))
  }

  ghost predicate TrueItem(item: Item, chosen: set<Stat>, history: seq<Metric>, s: Series, sqrt: real -> real) {
    var xs := Values(true, history, s, item.field);
    xs != [] && item.stat in chosen && Due(item.stat, xs) && IsStat(item.value, item.stat, xs, sqrt)
  }

  ghost predicate Has(items: seq<Item>, f: string, stat: Stat) {
    exists i :: 0 <= i < |items| && items[i].field == f && items[i].stat == stat
  }

  /** A statistic is to be told of a field of a series. */
  ghost predicate Owed(chosen: set<Stat>, history: seq<Metric>, s: Series, f: string, stat: Stat) {
    Values(true, history, s, f) != [] && stat in chosen && Due(stat, Values(true, history, s, f))
  }

  /** Another statistic of the series falls on the same name. */
  ghost predicate Shadowed(chosen: set<Stat>, history: seq<Metric>, s: Series, f: string, stat: Stat) {
    || (stat == Difference && exists g :: f == g + "_non_negative" && Owed(chosen, history, s, g, Increase))
    || (stat == Increase && Owed(chosen, history, s, f + "_non_negative", Difference))
  }

  /** What is pushed of a series tells a statistic, and truly. */
  ghost predicate ToldTruly(out: map<string, real>, history: seq<Metric>, s: Series, f: string, stat: Stat,
                            sqrt: real -> real) {
    var xs := Values(true, history, s, f);
    xs != [] && Due(stat, xs) && Name(f, stat) in out && IsStat(out[Name(f, stat)], stat, xs, sqrt)
  }

  lemma OwedIsTold(items: seq<Item>, chosen: set<Stat>, history: seq<Metric>, s: Series, sqrt: real -> real,
                   f: string, stat: Stat)
    requires AllItems(items, chosen, history, s, sqrt) && Owed(chosen, history, s, f, stat)
    requires !Shadowed(chosen, history, s, f, stat)
    ensures ToldTruly(PutItems(items), history, s, f, stat, sqrt)
  {
    hide Values, Due, IsStat, PutItems, Name;
    assert Has(items, f, stat);
    var i :| 0 <= i < |items| && items[i].field == f && items[i].stat == stat;
    forall j | 0 <= j < |items| ensures !Clash(items[i], items[j]) {
      assert TrueItem(items[j], chosen, history, s, sqrt);
      assert Owed(chosen, history, s, items[j].field, items[j].stat);
    }
    assert TrueItem(items[i], chosen, history, s, sqrt);
    ItemFound(items, i);
  }

  lemma {:induction false} OnlyItems(items: seq<Item>, n: string) returns (i: nat)
    requires n in PutItems(items)
    ensures i < |items| && n == Name(items[i].field, items[i].stat) && PutItems(items)[n] == items[i].value
  {
    hide Name;
    var last := |items| - 1;
    i := last;
    if n != Name(items[last].field, items[last].stat) {
      i := OnlyItems(items[..last], n);
    }
  }

  lemma OnlyOwedIsTold(items: seq<Item>, chosen: set<Stat>, history: seq<Metric>, s: Series, sqrt: real -> real,
                       n: string)
    requires AllItems(items, chosen, history, s, sqrt) && n in PutItems(items)
    ensures exists f, stat ::
      n == Name(f, stat) && Owed(chosen, history, s, f, stat) && ToldTruly(PutItems(items), history, s, f, stat, sqrt)
  {
    hide Values, Due, IsStat, PutItems, Name;
    var i := OnlyItems(items, n);
    assert TrueItem(items[i], chosen, history, s, sqrt);
    var f, stat := items[i].field, items[i].stat;
    assert Owed(chosen, history, s, f, stat) && ToldTruly(PutItems(items), history, s, f, stat, sqrt);
  }

  /** What is pushed of a series: everything owed that is not shadowed, truly, and nothing that is not owed. */
  ghost predicate Pushed(out: map<string, real>, chosen: set<Stat>, history: seq<Metric>, s: Series,
                         sqrt: real -> real) {
    && (forall f, stat :: Owed(chosen, history, s, f, stat) && !Shadowed(chosen, history, s, f, stat) ==>
         ToldTruly(out, history, s, f, stat, sqrt))
    && (forall n <- out :: exists f, stat ::
         n == Name(f, stat) && Owed(chosen, history, s, f, stat) && ToldTruly(out, history, s, f, stat, sqrt))
  }

  /** What is not shadowed is found under its name if and only if it is owed. */
  lemma ToldIff(out: map<string, real>, chosen: set<Stat>, history: seq<Metric>, s: Series, sqrt: real -> real,
                f: string, stat: Stat)
    requires Pushed(out, chosen, history, s, sqrt) && !Shadowed(chosen, history, s, f, stat)
    ensures Name(f, stat) in out <==> Owed(chosen, history, s, f, stat)
    ensures Owed(chosen, history, s, f, stat) ==> ToldTruly(out, history, s, f, stat, sqrt)
  {
    hide Name, Values, Due, IsStat, Owed;
    if Name(f, stat) in out {
      var g, other :| Name(f, stat) == Name(g, other) && Owed(chosen, history, s, g, other);
      NamesClash(f, stat, g, other);
    }
  }

  /** A statistic is found under its name if and only if it is chosen and due, and then it is true. */
  ghost predicate Plainly(out: map<string, real>, chosen: set<Stat>, xs: seq<real>, sqrt: real -> real,
                          f: string, stat: Stat)
    requires xs != []
  {
    && (Name(f, stat) in out <==> stat in chosen && Due(stat, xs))
    && (Name(f, stat) in out ==> IsStat(out[Name(f, stat)], stat, xs, sqrt))
  }

  lemma ToldPlainly(out: map<string, real>, chosen: set<Stat>, history: seq<Metric>, s: Series, sqrt: real -> real,
                    f: string, stat: Stat)
    requires Pushed(out, chosen, history, s, sqrt) && Values(true, history, s, f) != []
    ensures Plainly(out, chosen, Values(true, history, s, f), sqrt, f, stat) || Shadowed(chosen, history, s, f, stat)
  {
    hide Values, Pushed, Name, Due, IsStat;
    if !Shadowed(chosen, history, s, f, stat) {
      ToldIff(out, chosen, history, s, sqrt, f, stat);
    }
  }

  lemma NotShadowed(chosen: set<Stat>, history: seq<Metric>, s: Series, f: string)
    ensures forall stat :: stat != Difference && stat != Increase ==> !Shadowed(chosen, history, s, f, stat)
    ensures (forall g :: f == g + "_non_negative" ==> !Owed(chosen, history, s, g, Increase)) ==>
      !Shadowed(chosen, history, s, f, Difference)
    ensures !Owed(chosen, history, s, f + "_non_negative", Difference) ==> !Shadowed(chosen, history, s, f, Increase)
  {
  }

  lemma FieldNames(f: string)
    ensures Name(f, Count) == f + "_count" && Name(f, Minimum) == f + "_min" && Name(f, Maximum) == f + "_max"
    ensures Name(f, Mean) == f + "_mean" && Name(f, Total) == f + "_sum" && Name(f, Variance2) == f + "_s2"
    ensures Name(f, Deviation) == f + "_stdev" && Name(f, Difference) == f + "_diff"
    ensures Name(f, Increase) == f + "_non_negative_diff"
  {
  }

  /**
    What is pushed of a field that had numbers, under which names. A difference is missed only if
    the increase of another field has its name, and the other way round.
  */
  lemma PushedIs(out: map<string, real>, chosen: set<Stat>, history: seq<Metric>, s: Series, sqrt: real -> real,
                 f: string)
    requires Pushed(out, chosen, history, s, sqrt) && Values(true, history, s, f) != []
    ensures var xs, n := Values(true, history, s, f), |Values(true, history, s, f)|;
      && (f + "_count" in out <==> Count in chosen)
      && (Count in chosen ==> out[f + "_count"] == n as real)
      && (f + "_min" in out <==> Minimum in chosen) && (Minimum in chosen ==> Least(out[f + "_min"], xs))
      && (f + "_max" in out <==> Maximum in chosen) && (Maximum in chosen ==> Greatest(out[f + "_max"], xs))
      && (f + "_mean" in out <==> Mean in chosen) && (Mean in chosen ==> out[f + "_mean"] == Sum(xs) / n as real)
      && (f + "_sum" in out <==> Total in chosen) && (Total in chosen ==> out[f + "_sum"] == Sum(xs))
      && (f + "_s2" in out <==> Variance2 in chosen && 2 <= n)
      && (f + "_s2" in out ==> out[f + "_s2"] == SampleVariance(xs))
      && (f + "_stdev" in out <==> Deviation in chosen && 2 <= n)
      && (f + "_stdev" in out ==> out[f + "_stdev"] == sqrt(SampleVariance(xs)))
    ensures var xs, n := Values(true, history, s, f), |Values(true, history, s, f)|;
      (forall g :: f == g + "_non_negative" ==> !Owed(chosen, history, s, g, Increase)) ==>
        && (f + "_diff" in out <==> Difference in chosen && 2 <= n)
        && (f + "_diff" in out ==> out[f + "_diff"] == xs[n - 1] - xs[0])
    ensures var xs, n := Values(true, history, s, f), |Values(true, history, s, f)|;
      !Owed(chosen, history, s, f + "_non_negative", Difference) ==>
        && (f + "_non_negative_diff" in out <==> Increase in chosen && 2 <= n && xs[0] <= xs[n - 1])
        && (f + "_non_negative_diff" in out ==> out[f + "_non_negative_diff"] == xs[n - 1] - xs[0])
  {
    hide Values, Pushed, Least, Greatest, Sum, SampleVariance, Owed, Shadowed, Name;
    NotShadowed(chosen, history, s, f);
    FieldNames(f);
    ToldPlainly(out, chosen, history, s, sqrt, f, Count);
    ToldPlainly(out, chosen, history, s, sqrt, f, Minimum);
    ToldPlainly(out, chosen, history, s, sqrt, f, Maximum);
    ToldPlainly(out, chosen, history, s, sqrt, f, Mean);
    ToldPlainly(out, chosen, history, s, sqrt, f, Total);
    ToldPlainly(out, chosen, history, s, sqrt, f, Variance2);
    ToldPlainly(out, chosen, history, s, sqrt, f, Deviation);
    ToldPlainly(out, chosen, history, s, sqrt, f, Difference);
    ToldPlainly(out, chosen, history, s, sqrt, f, Increase);
  }

  lemma ItemsPushed(items: seq<Item>, chosen: set<Stat>, history: seq<Metric>, s: Series, sqrt: real -> real)
    requires AllItems(items, chosen, history, s, sqrt)
    ensures Pushed(PutItems(items), chosen, history, s, sqrt)
  {
    hide AllItems, Owed, Shadowed, ToldTruly, PutItems, Name;
    forall f, stat | Owed(chosen, history, s, f, stat) && !Shadowed(chosen, history, s, f, stat)
      ensures ToldTruly(PutItems(items), history, s, f, stat, sqrt)
    {
      OwedIsTold(items, chosen, history, s, sqrt, f, stat);
    }
    forall n | n in PutItems(items) ensures exists f, stat ::
      n == Name(f, stat) && Owed(chosen, history, s, f, stat) && ToldTruly(PutItems(items), history, s, f, stat, sqrt)
    {
      OnlyOwedIsTold(items, chosen, history, s, sqrt, n);
    }
  }

  /** One field has been told as far as the first `n` statistics. */
  ghost predicate Telling(items: seq<Item>, chosen: set<Stat>, history: seq<Metric>, s: Series, sqrt: real -> real,
        fields: set<string>, f: string, n: nat)
    requires n <= |ALL|
  {
    && NoTwice(items)
    && (forall i :: 0 <= i < |items| ==>
         && (items[i].field in fields || (items[i].field == f && items[i].stat in ALL[..n]))
         && TrueItem(items[i], chosen, history, s, sqrt))
    && (forall g, stat ::
          (g in fields || (g == f && stat in ALL[..n])) && stat in chosen && Due(stat, Values(true, history, s, g)) ==>
         Has(items, g, stat))
  }

  lemma TellingStarts(items: seq<Item>, chosen: set<Stat>, history: seq<Metric>, s: Series, sqrt: real -> real,
                      fields: set<string>, f: string)
    requires Items(items, chosen, history, s, sqrt, fields)
    ensures Telling(items, chosen, history, s, sqrt, fields, f, 0)
  {
  }

  lemma TellingEnds(items: seq<Item>, chosen: set<Stat>, history: seq<Metric>, s: Series, sqrt: real -> real,
                    fields: set<string>, f: string)
    requires Telling(items, chosen, history, s, sqrt, fields, f, |ALL|)
    ensures Items(items, chosen, history, s, sqrt, fields + {f})
  {
    hide Values, Due, TrueItem, Has, NoTwice;
    assert ALL[..|ALL|] == ALL;
    AllStats(0);
  }

  lemma HasMore(items: seq<Item>, x: Item, f: string, stat: Stat)
    ensures Has(items + [x], f, stat) <==> Has(items, f, stat) || (x.field == f && x.stat == stat)
  {
    if Has(items, f, stat) {
      var i :| 0 <= i < |items| && items[i].field == f && items[i].stat == stat;
      assert (items + [x])[i] == items[i];
    }
    assert (items + [x])[|items|] == x;
  }

  lemma AllStats(n: nat)
    requires n < |ALL|
    ensures ALL[n] !in ALL[..n] && forall stat :: stat in ALL[..n + 1] <==> stat in ALL[..n] || stat == ALL[n]
    ensures forall stat: Stat :: stat in ALL
  {
    assert ALL[..n + 1] == ALL[..n] + [ALL[n]];
    forall stat: Stat ensures stat in ALL {
      match stat
      case Count => assert ALL[0] == stat;
      case Minimum => assert ALL[1] == stat;
      case Maximum => assert ALL[2] == stat;
      case Mean => assert ALL[3] == stat;
      case Total => assert ALL[4] == stat;
      case Variance2 => assert ALL[5] == stat;
      case Deviation => assert ALL[6] == stat;
      case Difference => assert ALL[7] == stat;
      case Increase => assert ALL[8] == stat;
    }
  }

  lemma TellingStep(items: seq<Item>, chosen: set<Stat>, history: seq<Metric>, s: Series, sqrt: real -> real,
        fields: set<string>, f: string, n: nat, st: Stats)
    requires n < |ALL| && f !in fields && Telling(items, chosen, history, s, sqrt, fields, f, n)
    requires Describes(st, Values(true, history, s, f))
    ensures var told := Tell(st, ALL[n], sqrt);
      Telling(if ALL[n] in chosen && told.Some? then items + [Item(f, ALL[n], told.value)] else items,
              chosen, history, s, sqrt, fields, f, n + 1)
  {
    hide Values, Describes, Due, IsStat, Tell, Has;
    var stat := ALL[n];
    var told := Tell(st, stat, sqrt);
    TellsStat(st, Values(true, history, s, f), stat, sqrt);
    AllStats(n);
    if stat in chosen && told.Some? {
      var x := Item(f, stat, told.value);
      forall g, t ensures Has(items + [x], g, t) <==> Has(items, g, t) || (x.field == g && x.stat == t) {
        HasMore(items, x, g, t);
      }
    }
  }

  lemma NothingOwed(chosen: set<Stat>, history: seq<Metric>, s: Series, sqrt: real -> real)
    requires forall f :: Values(true, history, s, f) == []
    ensures Pushed(map[], chosen, history, s, sqrt)
  {
  }

  lemma NoItems()
    ensures PutItems([]) == map[]
  {
  }

  class Aggregator {
    const chosen: set<Stat>
    const sqrt: real -> real
    var cache: map<Series, map<string, Stats>>
    ghost var history: seq<Metric>

    ghost predicate Valid()
      reads this
    {
      Summarized(cache, history)
    }

    constructor (chosen: set<Stat>, sqrt: real -> real)
      ensures Valid() && history == [] && this.chosen == chosen && this.sqrt == sqrt
    {
      this.chosen, this.sqrt := chosen, sqrt;
      cache := map[];
      history := [];
    }

    /** Take in one field of a metric. */
    method AddField(fields: map<string, Stats>, m: Metric, f: string, ghost done: set<string>)
      returns (r: map<string, Stats>)
      requires Adding(fields, history, m, done) && f in m.fields && f !in done
      ensures Adding(r, history, m, done + {f})
    {
      hide Values, Describes, Update, First;
      r := fields;
      OneMoreMetric(true, history, m, m.series, f);
      ghost var xs := Values(true, history, m.series, f);
      assert xs + [] == xs;
      if Convert(true, m.fields[f]).Some? {
        var x := Convert(true, m.fields[f]).value;
        if f !in fields {
          FirstDescribes(x);
          assert xs + [x] == [x];
          r := r[f := First(x)];
        } else {
          UpdateDescribes(fields[f], xs, x);
          r := r[f := Update(fields[f], x)];
        }
      }
    }

    /** Take in a metric. */
    method Add(m: Metric)
      requires Valid()
      modifies this
      ensures Valid() && history == old(history) + [m]
    {
      hide Values, Describes, Summarized, Adding;
      var fields := if m.series in cache then cache[m.series] else map[];
      AddingStarts(cache, history, m);
      var rest := m.fields.Keys;
      assert m.fields.Keys - rest == {};
      while rest != {}
        modifies {}
        invariant rest <= m.fields.Keys && Adding(fields, history, m, m.fields.Keys - rest)
        decreases |rest|
      {
        var f :| f in rest;
        fields := AddField(fields, m, f, m.fields.Keys - rest);
        assert m.fields.Keys - rest + {f} == m.fields.Keys - (rest - {f});
        rest := rest - {f};
      }
      assert m.fields.Keys - rest == m.fields.Keys;
      AddingEnds(cache, history, m, fields);
      cache := cache[m.series := fields];
      history := history + [m];
    }

    /** Tell one field of a series, statistic by statistic. */
    method PushField(fields: map<string, real>, f: string, st: Stats, ghost items: seq<Item>, ghost s: Series,
                     ghost done: set<string>)
      returns (r: map<string, real>, ghost told: seq<Item>)
      requires fields == PutItems(items) && f !in done && Items(items, chosen, history, s, sqrt, done)
      requires Describes(st, Values(true, history, s, f))
      ensures r == PutItems(told) && Items(told, chosen, history, s, sqrt, done + {f})
    {
      hide Values, Describes, Tell, Due, Telling, Items, Name;
      r, told := fields, items;
      TellingStarts(items, chosen, history, s, sqrt, done, f);
      for n := 0 to |ALL|
        invariant r == PutItems(told) && Telling(told, chosen, history, s, sqrt, done, f, n)
      {
        TellingStep(told, chosen, history, s, sqrt, done, f, n, st);
        var v := Tell(st, ALL[n], sqrt);
        if ALL[n] in chosen && v.Some? {
          ghost var x := Item(f, ALL[n], v.value);
          assert (told + [x])[..|told|] == told;
          r := r[Name(f, ALL[n]) := v.value];
          told := told + [x];
        }
      }
      TellingEnds(told, chosen, history, s, sqrt, done, f);
    }

    /** Tell the fields of a series, in any order. */
    method PushSeries(s: Series) returns (r: map<string, real>)
      requires Valid() && s in cache
      ensures Pushed(r, chosen, history, s, sqrt)
    {
      hide Values, Describes, TrueItem, Has, Due, PutItems, Pushed;
      r := map[];
      ghost var told: seq<Item> := [];
      NoItems();
      var rest := cache[s].Keys;
      assert cache[s].Keys - rest == {};
      while rest != {}
        invariant rest <= cache[s].Keys && r == PutItems(told)
        invariant Items(told, chosen, history, s, sqrt, cache[s].Keys - rest)
        decreases |rest|
      {
        var f :| f in rest;
        r, told := PushField(r, f, cache[s][f], told, s, cache[s].Keys - rest);
        assert cache[s].Keys - rest + {f} == cache[s].Keys - (rest - {f});
        rest := rest - {f};
      }
      assert cache[s].Keys - rest == cache[s].Keys;
      assert AllItems(told, chosen, history, s, sqrt);
      ItemsPushed(told, chosen, history, s, sqrt);
    }

    /**
      Tell the statistics chosen of every field of every series that had a number since the
      last reset; a series of which nothing is told is left out.
    */
    method Push() returns (r: map<Series, map<string, real>>)
      requires Valid()
      ensures forall s :: Pushed(if s in r then r[s] else map[], chosen, history, s, sqrt)
      ensures forall s <- r :: r[s] != map[]
    {
      hide Values, Describes, Pushed;
      r := map[];
      var rest := cache.Keys;
      while rest != {}
        invariant rest <= cache.Keys && r.Keys <= cache.Keys - rest
        invariant forall s <- cache :: s !in rest ==> Pushed(if s in r then r[s] else map[], chosen, history, s, sqrt)
        invariant forall s <- r :: r[s] != map[]
        decreases |rest|
      {
        var s :| s in rest;
        var fields := PushSeries(s);
        if |fields| > 0 {
          r := r[s := fields];
        }
        rest := rest - {s};
      }
      forall s | s !in cache ensures Pushed(map[], chosen, history, s, sqrt) {
        assert forall f :: Values(true, history, s, f) == [];
        NothingOwed(chosen, history, s, sqrt);
      }
    }

    /** Start over. */
    method Reset()
      modifies this
      ensures Valid() && history == []
    {
      cache := map[];
      history := [];
    }
  }
}
