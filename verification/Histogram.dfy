/** The histogram aggregator of `plugins/aggregators/histogram/histogram.go`. */
module Histogram {
  import opened HistogramSpec
  import opened Options
  import opened Samples

  predicate Cached(cache: map<Series, map<string, seq<nat>>>, s: Series, f: string) {
    s in cache && f in cache[s]
  }

  /** The counts of a field are those of a history. */
  ghost predicate Exact(configs: seq<Config>, counts: seq<nat>, history: seq<Metric>, s: Series, f: string) {
    && Chosen(configs, s.name, f).Some?
    && Tallies(counts, Chosen(configs, s.name, f).value, Values(false, history, s, f))
  }

  /** The cache holds exactly the configured fields seen in a history, with their counts. */
  ghost predicate Counted(configs: seq<Config>, cache: map<Series, map<string, seq<nat>>>, history: seq<Metric>) {
    && (forall s, f :: Cached(cache, s, f) <==> Seen(history, s, f) && Chosen(configs, s.name, f).Some?)
    && (forall s, f :: Cached(cache, s, f) ==> Exact(configs, cache[s][f], history, s, f))
  }

  /** A configuration in use: its borders are a slice that is sorted in place. */
  datatype Entry = Entry(metric: string, fields: seq<string>, buckets: Option<array<real>>)

  /** An entry loaded from a configuration, sorted since or not. */
  ghost predicate Loaded(e: Entry, c: Config)
    reads if e.buckets.Some? then {e.buckets.value} else {}
  {
    && e.metric == c.metric && e.fields == c.fields && (e.buckets.Some? <==> c.buckets.Some?)
    && (e.buckets.Some? ==> e.buckets.value[..] == c.buckets.value || e.buckets.value[..] == Sort(c.buckets.value))
  }

  /** `sort.Float64s` */
  method SortFloats(a: array<real>)
    modifies a
    ensures a[..] == Sort(old(a[..]))
  {
    var sorted := Sort(a[..]);
    SortLength(a[..]);
    forall i | 0 <= i < a.Length {
      a[i] := sorted[i];
    }
  }

  lemma SortLength(b: seq<real>)
    ensures |Sort(b)| == |b|
  {
    SortSorts(b);
    assert |multiset(Sort(b))| == |multiset(b)|;
  }

  /** Sort the borders in place if they do not ascend. */
  method SortBuckets(a: array<real>)
    modifies a
    ensures a[..] == Sort(old(a[..]))
  {
    for i := 0 to a.Length
      invariant a[..] == old(a[..])
      invariant forall j :: 0 < j <= i && j < a.Length ==> a[j - 1] < a[j]
    {
      if i < a.Length - 1 && a[i] >= a[i + 1] {
        SortFloats(a);
        return;
      }
    }
    SortKeeps(a[..]);
  }

  /** `sort.SearchFloat64s`: binary search for the first border that is not below a value. */
  method Search(borders: seq<real>, x: real) returns (i: nat)
    requires Ascending(borders)
    ensures Falls(borders, x, i)
  {
    i := 0;
    var j := |borders|;
    while i < j
      invariant 0 <= i <= j <= |borders|
      invariant forall k :: 0 <= k < i ==> borders[k] < x
      invariant forall k :: j <= k < |borders| ==> x <= borders[k]
    {
      var h := (i + j) / 2;
      if borders[h] < x {
        i := h + 1;
      } else {
        j := h;
      }
    }
  }

  /** Count one value of a field. */
  method Hit(agr: map<string, seq<nat>>, f: string, borders: seq<real>, v: Value, ghost xs: seq<real>)
    returns (r: map<string, seq<nat>>)
    requires Ascending(borders)
    requires if f in agr then Tallies(agr[f], borders, xs) else xs == []
    ensures r.Keys == agr.Keys + {f} && forall g <- agr :: g != f ==> r[g] == agr[g]
    ensures Tallies(r[f], borders, xs + Countable(false, v))
  {
    r := agr;
    if f !in agr {
      r := r[f := seq(|borders| + 1, _ => 0)];
      TalliesNothing(borders);
    }
    if Convert(false, v).Some? {
      var i := Search(borders, Convert(false, v).value);
      TalliesOneMore(r[f], borders, xs, Convert(false, v).value, i);
      r := r[f := r[f][i := r[f][i] + 1]];
    } else {
      assert xs + [] == xs;
    }
  }

  /** Group one line with the metric it belongs to. */
  method GroupField(groups: seq<Group>, l: Line) returns (r: seq<Group>)
    ensures r == Put(groups, l)
  {
    for k := 0 to |groups|
      invariant forall j :: 0 <= j < k ==> !(groups[j].name == l.name && TagsIdentical(l.tags, groups[j].tags))
    {
      if l.name == groups[k].name && TagsIdentical(l.tags, groups[k].tags) {
        assert Where(groups, l) == k;
        return groups[k := groups[k].(fields := groups[k].fields[l.field := l.count])];
      }
    }
    return groups + [Group(l.name, l.tags, map[l.field := l.count])];
  }

  // ---------- what a push tells ----------

  /** What a push depends on: the configuration and the metrics since the last reset. */
  datatype View = View(configs: seq<Config>, cumulative: bool, format: real -> string, history: seq<Metric>)

  ghost predicate Counts(v: View, s: Series, f: string) {
    Seen(v.history, s, f) && Chosen(v.configs, s.name, f).Some?
  }

  ghost function Borders(v: View, s: Series, f: string): seq<real> {
    var chosen := Chosen(v.configs, s.name, f);
    if chosen.Some? then chosen.value else []
  }

  /**
    What is to be told of a bucket of a field: how many of the values seen since the last reset
    are not above its border, or, if counts are not cumulative, lie between its borders.
  */
  ghost function Truth(v: View, s: Series, f: string, i: nat): Line
    requires i <= |Borders(v, s, f)|
  {
    LineAt(v.cumulative, v.format, s, f, Borders(v, s, f), Values(false, v.history, s, f), i)
  }

  ghost function FieldLines(v: View, s: Series, f: string, n: nat): seq<Line>
    requires n <= |Borders(v, s, f)| + 1
  {
    if n == 0 then [] else FieldLines(v, s, f, n - 1) + [Truth(v, s, f, n - 1)]
  }

  ghost function AllLines(v: View, pairs: seq<(Series, string)>): seq<Line> {
    if pairs == [] then []
    else
      var (s, f) := pairs[|pairs| - 1];
      AllLines(v, pairs[..|pairs| - 1]) + FieldLines(v, s, f, |Borders(v, s, f)| + 1)
  }

  lemma {:induction false} FieldLinesAre(v: View, s: Series, f: string, n: nat)
    requires n <= |Borders(v, s, f)| + 1
    ensures |FieldLines(v, s, f, n)| == n
    ensures forall i :: 0 <= i < n ==> FieldLines(v, s, f, n)[i] == Truth(v, s, f, i)
  {
    if n > 0 {
      FieldLinesAre(v, s, f, n - 1);
    }
  }

  lemma {:induction false} LinesTold(v: View, pairs: seq<(Series, string)>, k: nat, i: nat)
    requires k < |pairs| && i <= |Borders(v, pairs[k].0, pairs[k].1)|
    ensures Truth(v, pairs[k].0, pairs[k].1, i) in AllLines(v, pairs)
  {
    hide Truth, Borders;
    var (s, f) := pairs[|pairs| - 1];
    if k < |pairs| - 1 {
      LinesTold(v, pairs[..|pairs| - 1], k, i);
    } else {
      FieldLinesAre(v, s, f, |Borders(v, s, f)| + 1);
      assert FieldLines(v, s, f, |Borders(v, s, f)| + 1)[i] in AllLines(v, pairs);
    }
  }

  lemma {:induction false} LineFrom(v: View, pairs: seq<(Series, string)>, l: Line) returns (k: nat, i: nat)
    requires l in AllLines(v, pairs)
    ensures k < |pairs| && i <= |Borders(v, pairs[k].0, pairs[k].1)| && l == Truth(v, pairs[k].0, pairs[k].1, i)
  {
    hide Truth, Borders;
    var (s, f) := pairs[|pairs| - 1];
    if l in AllLines(v, pairs[..|pairs| - 1]) {
      k, i := LineFrom(v, pairs[..|pairs| - 1], l);
    } else {
      FieldLinesAre(v, s, f, |Borders(v, s, f)| + 1);
      k := |pairs| - 1;
      i :| 0 <= i <= |Borders(v, s, f)| && l == FieldLines(v, s, f, |Borders(v, s, f)| + 1)[i];
    }
  }

  /** No series has an empty tag or one that buckets write, and the labels of borders tell them apart. */
  ghost predicate AllPlain(v: View, pairs: seq<(Series, string)>) {
    forall k :: 0 <= k < |pairs| ==>
      PlainTags(v.cumulative, pairs[k].0.tags) && FaithfulLabels(v.format, Borders(v, pairs[k].0, pairs[k].1))
  }

  /** Two truths about the same field of the same metric are the same. */
  lemma TruthsAgree(v: View, s: Series, f: string, i: nat, t: Series, g: string, j: nat)
    requires i <= |Borders(v, s, f)| && j <= |Borders(v, t, g)|
    requires PlainTags(v.cumulative, s.tags) && FaithfulLabels(v.format, Borders(v, s, f))
    requires PlainTags(v.cumulative, t.tags) && FaithfulLabels(v.format, Borders(v, t, g))
    requires Truth(v, s, f, i).(count := 0) == Truth(v, t, g, j).(count := 0)
    ensures s == t && f == g && Truth(v, s, f, i) == Truth(v, t, g, j)
  {
    hide BucketTags, Told, Borders, FaithfulLabels, PlainTags;
    BucketTagsKeepSeries(v.cumulative, v.format, s.tags, Borders(v, s, f), i);
    BucketTagsKeepSeries(v.cumulative, v.format, t.tags, Borders(v, t, g), j);
    LinesAgree(v.cumulative, v.format, s, f, Borders(v, s, f), Values(false, v.history, s, f), i, j);
  }

  /** Then the lines of a push do not contradict each other and none can be mistaken. */
  lemma PlainIsEnough(v: View, pairs: seq<(Series, string)>)
    requires AllPlain(v, pairs)
    ensures Consistent(AllLines(v, pairs)) && Unmistaken(AllLines(v, pairs))
  {
    hide AllLines, Truth, Borders, FaithfulLabels, PlainTags, TagsIdentical;
    var lines := AllLines(v, pairs);
    forall a, b | a in lines && b in lines && a.(count := 0) == b.(count := 0) ensures a == b {
      var k, i := LineFrom(v, pairs, a);
      var m, j := LineFrom(v, pairs, b);
      TruthsAgree(v, pairs[k].0, pairs[k].1, i, pairs[m].0, pairs[m].1, j);
    }
    forall a, b | a in lines && b in lines ensures !Mistakable(a, b) {
      var k, i := LineFrom(v, pairs, a);
      TruthHasNoEmptyTag(v, pairs[k].0, pairs[k].1, i);
      IdenticalIsEqual(a.tags, b.tags);
    }
  }

  lemma TruthHasNoEmptyTag(v: View, s: Series, f: string, i: nat)
    requires i <= |Borders(v, s, f)| && PlainTags(v.cumulative, s.tags) && FaithfulLabels(v.format, Borders(v, s, f))
    ensures NoEmptyTag(Truth(v, s, f, i).tags)
  {
    hide BucketTags, Borders, FaithfulLabels, PlainTags;
    BucketTagsKeepSeries(v.cumulative, v.format, s.tags, Borders(v, s, f), i);
  }

  /** Pairs are the configured fields that were seen, each at least once. */
  ghost predicate Covers(v: View, pairs: seq<(Series, string)>) {
    forall s, f :: (s, f) in pairs <==> Counts(v, s, f)
  }

  ghost predicate TellsTruth(v: View, groups: seq<Group>, s: Series, f: string) {
    forall i :: 0 <= i <= |Borders(v, s, f)| ==> TellsLine(groups, Truth(v, s, f, i))
  }

  /**
    A push tells the truth of every bucket of every configured field that was seen, nothing
    else, and no metric twice, if its lines do not contradict each other and none can be
    mistaken for a line of another metric.
  */
  lemma PushTellsTruth(v: View, pairs: seq<(Series, string)>)
    requires Covers(v, pairs) && Consistent(AllLines(v, pairs)) && Unmistaken(AllLines(v, pairs))
    ensures var groups := PutAll(AllLines(v, pairs));
      && Distinct(groups)
      && (forall s, f :: Counts(v, s, f) ==> TellsTruth(v, groups, s, f))
      && (forall k, f :: 0 <= k < |groups| && f in groups[k].fields ==>
           exists s, i: nat :: Counts(v, s, f) && i <= |Borders(v, s, f)| && Tells(groups[k], Truth(v, s, f, i)))
  {
    hide AllLines, Truth, Borders, PutAll, Counts, Consistent, Unmistaken;
    var lines := AllLines(v, pairs);
    var groups := PutAll(lines);
    GroupingTells(lines);
    forall s, f | Counts(v, s, f) ensures TellsTruth(v, groups, s, f) {
      AllTruth(v, pairs, groups, s, f);
    }
    forall k, f | 0 <= k < |groups| && f in groups[k].fields
      ensures exists s, i: nat :: Counts(v, s, f) && i <= |Borders(v, s, f)| && Tells(groups[k], Truth(v, s, f, i))
    {
      OnlyTruth(v, pairs, groups[k], f);
    }
  }

  lemma AllTruth(v: View, pairs: seq<(Series, string)>, groups: seq<Group>, s: Series, f: string)
    requires Covers(v, pairs) && Counts(v, s, f) && AllTold(groups, AllLines(v, pairs))
    ensures TellsTruth(v, groups, s, f)
  {
    hide AllLines, Truth, Borders, Counts, Tells;
    assert (s, f) in pairs;
    var n :| 0 <= n < |pairs| && pairs[n] == (s, f);
    forall i | 0 <= i <= |Borders(v, s, f)| ensures TellsLine(groups, Truth(v, s, f, i)) {
      LinesTold(v, pairs, n, i);
    }
  }

  lemma OnlyTruth(v: View, pairs: seq<(Series, string)>, g: Group, f: string)
    requires Covers(v, pairs) && f in g.fields && Line(g.name, g.tags, f, g.fields[f]) in AllLines(v, pairs)
    ensures exists s, i: nat :: Counts(v, s, f) && i <= |Borders(v, s, f)| && Tells(g, Truth(v, s, f, i))
  {
    hide AllLines, Borders, Counts, BucketTags, Told, Values;
    var n, i := LineFrom(v, pairs, Line(g.name, g.tags, f, g.fields[f]));
    var s := pairs[n].0;
    assert pairs[n] == (s, f);
    assert Counts(v, s, f) && Tells(g, Truth(v, s, f, i));
  }

  // ---------- the aggregator ----------

  lemma OneMoreLine(v: View, s: Series, f: string, n: nat, lines: seq<Line>)
    requires n <= |Borders(v, s, f)|
    ensures PutAll(lines + FieldLines(v, s, f, n + 1)) == Put(PutAll(lines + FieldLines(v, s, f, n)), Truth(v, s, f, n))
  {
    hide Truth, Borders, Put;
    var all := lines + FieldLines(v, s, f, n + 1);
    assert all[..|all| - 1] == lines + FieldLines(v, s, f, n);
  }

  /** Put the borders of a bucket over those of the bucket before it. */
  method Relabel(cumulative: bool, format: real -> string, tags: map<string, string>, buckets: seq<real>, index: nat,
        ghost bare: map<string, string>)
    returns (r: map<string, string>)
    requires index <= |buckets|
    requires tags == if index == 0 then bare else BucketTags(cumulative, format, bare, buckets, index - 1)
    ensures r == BucketTags(cumulative, format, bare, buckets, index)
  {
    r := tags;
    if !cumulative {
      r := r[LEFT := NEGATIVE_INFINITY];
      if index > 0 {
        r := r[LEFT := Label(format, buckets[index - 1])];
      }
    }
    r := r[RIGHT := POSITIVE_INFINITY];
    if index < |buckets| {
      r := r[RIGHT := Label(format, buckets[index])];
    }
    assert LEFT[0] != RIGHT[0];
    assert r == BucketTags(cumulative, format, bare, buckets, index);
  }

  /** Add the lines of a field to the groups, bucket by bucket. */
  method GroupFieldsByBuckets(groups: seq<Group>, cumulative: bool, format: real -> string,
        s: Series, f: string, buckets: seq<real>, counts: seq<nat>, ghost v: View, ghost lines: seq<Line>)
    returns (r: seq<Group>)
    requires Ascending(buckets) && Tallies(counts, buckets, Values(false, v.history, s, f))
    requires Borders(v, s, f) == buckets && v.cumulative == cumulative && v.format == format
    requires groups == PutAll(lines)
    ensures r == PutAll(lines + FieldLines(v, s, f, |buckets| + 1))
  {
    hide Put, PutAll, Tallies, Borders, BucketTags, Values, Told;
    var sum := 0;
    var tags := s.tags;
    r := groups;
    assert lines + FieldLines(v, s, f, 0) == lines;
    assert |counts| == |buckets| + 1 by { TalliesLength(counts, buckets, Values(false, v.history, s, f)); }
    for index := 0 to |counts|
      invariant cumulative ==> sum == Sum(counts[..index])
      invariant tags == if index == 0 then s.tags else BucketTags(cumulative, format, s.tags, buckets, index - 1)
      invariant r == PutAll(lines + FieldLines(v, s, f, index))
    {
      if !cumulative {
        sum := 0;
      }
      tags := Relabel(cumulative, format, tags, buckets, index, s.tags);
      sum := sum + counts[index];
      RunningSum(cumulative, counts, buckets, Values(false, v.history, s, f), index);
      OneMoreLine(v, s, f, index, lines);
      r := GroupField(r, Line(s.name, tags, f, sum));
    }
  }

  lemma TalliesLength(counts: seq<nat>, borders: seq<real>, xs: seq<real>)
    requires Tallies(counts, borders, xs)
    ensures |counts| == |borders| + 1
  {
  }

  lemma RunningSum(cumulative: bool, counts: seq<nat>, borders: seq<real>, xs: seq<real>, i: nat)
    requires Ascending(borders) && Tallies(counts, borders, xs) && i < |counts|
    ensures i <= |borders|
    ensures Sum(counts[..i + 1]) == Sum(counts[..i]) + counts[i]
    ensures Told(cumulative, xs, borders, i) == if cumulative then Sum(counts[..i + 1]) else counts[i]
  {
    assert counts[..i + 1][..i] == counts[..i];
    CumulativeCounts(counts, borders, xs, i);
  }

  lemma {:induction false} ChosenStep(configs: seq<Config>, i: nat, metric: string, field: string)
    requires i < |configs|
    ensures Chosen(configs[..i + 1], metric, field) ==
      if !Applies(configs[i], metric, field) then Chosen(configs[..i], metric, field)
      else if configs[i].buckets.None? then None else Some(Sort(configs[i].buckets.value))
  {
    assert configs[..i + 1][..i] == configs[..i];
  }

  /** Counts of the fields of one metric: those done so far have its values too. */
  ghost predicate Adding(configs: seq<Config>, agr: map<string, seq<nat>>, history: seq<Metric>, m: Metric,
                         done: set<string>) {
    && (forall f :: f in agr <==> Chosen(configs, m.series.name, f).Some? && (Seen(history, m.series, f) || f in done))
    && (forall f :: f in agr ==> Exact(configs, agr[f], if f in done then history + [m] else history, m.series, f))
  }

  lemma AddingStarts(configs: seq<Config>, cache: map<Series, map<string, seq<nat>>>, history: seq<Metric>, m: Metric)
    requires Counted(configs, cache, history)
    ensures Adding(configs, if m.series in cache then cache[m.series] else map[], history, m, {})
  {
    var agr := if m.series in cache then cache[m.series] else map[];
    assert forall f :: f in agr <==> Cached(cache, m.series, f);
  }

  lemma AddingEnds(configs: seq<Config>, cache: map<Series, map<string, seq<nat>>>, history: seq<Metric>,
        m: Metric, agr: map<string, seq<nat>>)
    requires Counted(configs, cache, history) && Adding(configs, agr, history, m, m.fields.Keys)
    ensures Counted(configs, cache[m.series := agr], history + [m])
  {
    hide Chosen, Seen, Values, Tallies;
    var now := cache[m.series := agr];
    forall s, f
      ensures Cached(now, s, f) <==> Seen(history + [m], s, f) && Chosen(configs, s.name, f).Some?
      ensures Cached(now, s, f) ==> Exact(configs, now[s][f], history + [m], s, f)
    {
      OneMoreMetric(false, history, m, s, f);
      assert s != m.series ==> (Cached(now, s, f) <==> Cached(cache, s, f));
      assert s == m.series ==> (Cached(now, s, f) <==> f in agr);
      assert Values(false, history, s, f) + [] == Values(false, history, s, f);
    }
  }

  /** Nothing is counted of a metric without a configured field. */
  lemma AddingNothing(configs: seq<Config>, cache: map<Series, map<string, seq<nat>>>, history: seq<Metric>, m: Metric)
    requires Counted(configs, cache, history)
    requires forall f <- m.fields :: Chosen(configs, m.series.name, f).None?
    ensures Counted(configs, cache, history + [m])
  {
    hide Chosen, Seen, Values, Tallies;
    forall s, f
      ensures Cached(cache, s, f) <==> Seen(history + [m], s, f) && Chosen(configs, s.name, f).Some?
      ensures Cached(cache, s, f) ==> Exact(configs, cache[s][f], history + [m], s, f)
    {
      OneMoreMetric(false, history, m, s, f);
      assert Values(false, history, s, f) + [] == Values(false, history, s, f);
    }
  }

  /** One field of the metric has been counted. */
  lemma AddingStep(configs: seq<Config>, agr: map<string, seq<nat>>, now: map<string, seq<nat>>,
        history: seq<Metric>, m: Metric, done: set<string>, f: string)
    requires Adding(configs, agr, history, m, done) && f in m.fields && f !in done
    requires Chosen(configs, m.series.name, f).Some?
    requires now.Keys == agr.Keys + {f} && forall g <- agr :: g != f ==> now[g] == agr[g]
    requires Tallies(now[f], Chosen(configs, m.series.name, f).value,
                     Values(false, history, m.series, f) + Countable(false, m.fields[f]))
    ensures Adding(configs, now, history, m, done + {f})
  {
    hide Chosen, Seen, Values, Tallies;
    OneMoreMetric(false, history, m, m.series, f);
    assert Exact(configs, now[f], history + [m], m.series, f);
  }

  lemma NoneChosen(configs: seq<Config>, metric: string, field: string)
    ensures Chosen(configs[..0], metric, field).None?
  {
  }

  lemma ChosenSorted(configs: seq<Config>, metric: string, field: string)
    requires Chosen(configs, metric, field).Some?
    ensures Sort(Chosen(configs, metric, field).value) == Chosen(configs, metric, field).value
  {
    ChosenAscends(configs, metric, field);
    SortKeeps(Chosen(configs, metric, field).value);
  }

  lemma PutNothing(v: View)
    ensures PutAll(AllLines(v, [])) == []
  {
  }

  lemma CountedCovers(v: View, cache: map<Series, map<string, seq<nat>>>, pairs: seq<(Series, string)>)
    requires Counted(v.configs, cache, v.history)
    requires forall s, f :: (s, f) in pairs <==> Cached(cache, s, f)
    ensures Covers(v, pairs)
  {
  }

  class Aggregator {
    const entries: seq<Entry>
    ghost const configs: seq<Config>             // the entries as they were loaded
    ghost const arrays: set<array<real>>         // their borders
    const resetBuckets: bool
    const cumulative: bool
    const format: real -> string
    var buckets: map<(string, string), Option<array<real>>>
    var cache: map<Series, map<string, seq<nat>>>
    ghost var history: seq<Metric>

    ghost predicate Configured()
      reads this, arrays
    {
      && |entries| == |configs|
      && (forall i :: 0 <= i < |entries| ==> entries[i].buckets.Some? ==> entries[i].buckets.value in arrays)
      && (forall i :: 0 <= i < |entries| ==> Loaded(entries[i], configs[i]))
    }

    /** What is remembered for a field: the borders, sorted, in the slice of the configuration. */
    ghost predicate Remembers(b: Option<array<real>>, chosen: Option<seq<real>>)
      reads this, arrays
    {
      (b.Some? <==> chosen.Some?) && (b.Some? ==> b.value in arrays && b.value[..] == chosen.value)
    }

    /** Borders are looked up once and remembered. */
    ghost predicate Known()
      reads this, arrays
    {
      Configured() && forall k <- buckets :: Remembers(buckets[k], Chosen(configs, k.0, k.1))
    }

    ghost predicate Valid()
      reads this, arrays
    {
      Known() && Counted(configs, cache, history)
    }

    constructor (entries: seq<Entry>, resetBuckets: bool, cumulative: bool, format: real -> string,
                 ghost configs: seq<Config>)
      requires |entries| == |configs| && forall i :: 0 <= i < |entries| ==> Loaded(entries[i], configs[i])
      ensures Valid() && history == []
      ensures this.configs == configs && this.entries == entries && this.resetBuckets == resetBuckets
      ensures this.cumulative == cumulative && this.format == format
    {
      this.entries, this.resetBuckets, this.cumulative, this.format := entries, resetBuckets, cumulative, format;
      this.configs := configs;
      arrays := set i | 0 <= i < |entries| && entries[i].buckets.Some? :: entries[i].buckets.value;
      buckets := map[];
      cache := map[];
      history := [];
    }

    /** Sort the borders of an entry in place. Borders that are sorted already stay as they are. */
    method SortEntry(i: nat) returns (r: Option<array<real>>)
      requires Configured() && i < |entries|
      modifies arrays
      ensures Configured() && r == entries[i].buckets
      ensures r.Some? ==> r.value[..] == Sort(configs[i].buckets.value)
      ensures forall a <- arrays :: old(a[..]) == Sort(old(a[..])) ==> a[..] == old(a[..])
    {
      r := entries[i].buckets;
      if r.Some? {
        ghost var c := configs[i].buckets.value;
        SortTwice(c);
        forall j | 0 <= j < |configs| && configs[j].buckets.Some?
          ensures Sort(Sort(configs[j].buckets.value)) == Sort(configs[j].buckets.value)
        {
          SortTwice(configs[j].buckets.value);
        }
        SortBuckets(r.value);
      }
    }

    /** The borders for a field, found once and then remembered. */
    method GetBuckets(metric: string, field: string) returns (r: Option<array<real>>)
      requires Known()
      modifies `buckets, arrays
      ensures Known() && Remembers(r, Chosen(configs, metric, field))
    {
      hide Sort, Chosen;
      var key := (metric, field);
      if key in buckets {
        return buckets[key];
      }
      NoneChosen(configs, metric, field);
      for i := 0 to |entries|
        invariant Configured()
        invariant forall k <- buckets :: k != key ==> Remembers(buckets[k], Chosen(configs, k.0, k.1))
        invariant if key in buckets then Remembers(buckets[key], Chosen(configs[..i], metric, field))
                  else Chosen(configs[..i], metric, field).None?
      {
        ChosenStep(configs, i, metric, field);
        if entries[i].metric == metric {
          if !Applies(Config(entries[i].metric, entries[i].fields, None), metric, field) {
            continue;
          }
          forall k | k in buckets && buckets[k].Some? && Chosen(configs, k.0, k.1).Some?
            ensures Sort(Chosen(configs, k.0, k.1).value) == Chosen(configs, k.0, k.1).value
          {
            ChosenSorted(configs, k.0, k.1);
          }
          var sorted := SortEntry(i);
          buckets := buckets[key := sorted];
        }
      }
      assert configs[..|configs|] == configs;
      return if key in buckets then buckets[key] else None;
    }

    /** The borders of the fields of a metric that have some. */
    method BucketsByField(m: Metric) returns (byField: map<string, seq<real>>)
      requires Known()
      modifies `buckets, arrays
      ensures Known()
      ensures forall f :: f in byField <==> f in m.fields && Chosen(configs, m.series.name, f).Some?
      ensures forall f <- byField :: byField[f] == Chosen(configs, m.series.name, f).value
    {
      hide Chosen;
      byField := map[];
      var rest := m.fields.Keys;
      while rest != {}
        invariant Known() && rest <= m.fields.Keys
        invariant forall f :: f in byField <==> f in m.fields && f !in rest && Chosen(configs, m.series.name, f).Some?
        invariant forall f <- byField :: byField[f] == Chosen(configs, m.series.name, f).value
        decreases |rest|
      {
        var f :| f in rest;
        var b := GetBuckets(m.series.name, f);
        if b.Some? {
          byField := byField[f := b.value[..]];
        }
        rest := rest - {f};
      }
    }

    /** Count the values of a metric. */
    method Add(m: Metric)
      requires Valid()
      modifies this, arrays
      ensures Valid() && history == old(history) + [m]
    {
      hide Chosen, Seen, Values, Counted, Adding, Tallies;
      var byField := BucketsByField(m);
      if |byField| == 0 {
        AddingNothing(configs, cache, history, m);
        history := history + [m];
        return;
      }
      var agr := if m.series in cache then cache[m.series] else map[];
      AddingStarts(configs, cache, history, m);
      var rest := m.fields.Keys;
      assert m.fields.Keys - rest == {};
      while rest != {}
        modifies {}
        invariant rest <= m.fields.Keys
        invariant Adding(configs, agr, history, m, m.fields.Keys - rest)
        decreases |rest|
      {
        var f :| f in rest;
        agr := AddField(agr, m, byField, f, m.fields.Keys - rest);
        assert m.fields.Keys - rest + {f} == m.fields.Keys - (rest - {f});
        rest := rest - {f};
      }
      assert m.fields.Keys - rest == m.fields.Keys;
      AddingEnds(configs, cache, history, m, agr);
      cache := cache[m.series := agr];
      history := history + [m];
    }

    /** Count one field of a metric. */
    method AddField(agr: map<string, seq<nat>>, m: Metric, byField: map<string, seq<real>>, f: string,
                    ghost done: set<string>)
      returns (r: map<string, seq<nat>>)
      requires Adding(configs, agr, history, m, done) && f in m.fields && f !in done
      requires f in byField <==> Chosen(configs, m.series.name, f).Some?
      requires f in byField ==> byField[f] == Chosen(configs, m.series.name, f).value
      ensures Adding(configs, r, history, m, done + {f})
    {
      hide Chosen, Seen, Values, Tallies;
      if f in byField {
        ChosenAscends(configs, m.series.name, f);
        UnseenHasNoValues(false, history, m.series, f);
        assert f in agr ==> Exact(configs, agr[f], history, m.series, f);
        r := Hit(agr, f, byField[f], m.fields[f], Values(false, history, m.series, f));
        AddingStep(configs, agr, r, history, m, done, f);
      } else {
        r := agr;
      }
    }

    ghost function Now(): View
      reads this
    {
      View(configs, cumulative, format, history)
    }

    /** The pairs told so far: some series in full, one in part. */
    ghost predicate Reported(pairs: seq<(Series, string)>, series: set<Series>, s: Series, fields: set<string>)
      reads this
    {
      forall t, f :: (t, f) in pairs <==> Cached(cache, t, f) && (t in series || (t == s && f in fields))
    }

    /** Tell the counts of a field. */
    method PushField(groups: seq<Group>, s: Series, f: string, ghost pairs: seq<(Series, string)>)
      returns (r: seq<Group>)
      requires Valid() && Cached(cache, s, f) && groups == PutAll(AllLines(Now(), pairs))
      modifies `buckets, arrays
      ensures Valid() && r == PutAll(AllLines(Now(), pairs + [(s, f)]))
    {
      hide Chosen, Seen, Values, Tallies, PutAll;
      assert Exact(configs, cache[s][f], history, s, f);
      ChosenAscends(configs, s.name, f);
      var b := GetBuckets(s.name, f);
      assert (pairs + [(s, f)])[..|pairs|] == pairs;
      r := GroupFieldsByBuckets(groups, cumulative, format, s, f, b.value[..], cache[s][f],
                                Now(), AllLines(Now(), pairs));
    }

    /** Tell the counts of a series. */
    method PushSeries(groups: seq<Group>, s: Series, ghost pairs: seq<(Series, string)>, ghost series: set<Series>)
      returns (r: seq<Group>, ghost all: seq<(Series, string)>)
      requires Valid() && s in cache && s !in series
      requires groups == PutAll(AllLines(Now(), pairs)) && Reported(pairs, series, s, {})
      modifies `buckets, arrays
      ensures Valid() && r == PutAll(AllLines(Now(), all)) && Reported(all, series + {s}, s, {})
    {
      hide Counted, PutAll, AllLines, Chosen;
      var rest := cache[s].Keys;
      r, all := groups, pairs;
      assert cache[s].Keys - rest == {};
      while rest != {}
        invariant Valid() && rest <= cache[s].Keys
        invariant r == PutAll(AllLines(Now(), all)) && Reported(all, series, s, cache[s].Keys - rest)
        decreases |rest|
      {
        var f :| f in rest;
        r := PushField(r, s, f, all);
        all := all + [(s, f)];
        rest := rest - {f};
      }
    }

    /**
      Tell all counts, series by series and field by field, in any order. What is told is the
      truth about the metrics since the last reset, unless lines contradict each other or can
      be mistaken.
    */
    method Push() returns (groups: seq<Group>, ghost pairs: seq<(Series, string)>)
      requires Valid()
      modifies `buckets, arrays
      ensures Valid() && Covers(Now(), pairs) && groups == PutAll(AllLines(Now(), pairs))
      ensures Consistent(AllLines(Now(), pairs)) && Unmistaken(AllLines(Now(), pairs)) ==>
        Distinct(groups) && forall s, f :: Counts(Now(), s, f) ==> TellsTruth(Now(), groups, s, f)
    {
      hide Counted, PutAll, AllLines, Chosen, TellsTruth, Consistent, Unmistaken;
      groups, pairs := [], [];
      var rest := cache.Keys;
      PutNothing(Now());
      ghost var none := Series("", map[]);
      while rest != {}
        invariant Valid() && rest <= cache.Keys
        invariant groups == PutAll(AllLines(Now(), pairs)) && Reported(pairs, cache.Keys - rest, none, {})
        decreases |rest|
      {
        var s :| s in rest;
        groups, pairs := PushSeries(groups, s, pairs, cache.Keys - rest);
        assert cache.Keys - rest + {s} == cache.Keys - (rest - {s});
        rest := rest - {s};
      }
      CountedCovers(Now(), cache, pairs);
      if Consistent(AllLines(Now(), pairs)) && Unmistaken(AllLines(Now(), pairs)) {
        PushTellsTruth(Now(), pairs);
      }
    }

    /** Forget everything, if so configured. */
    method Reset()
      requires Valid()
      modifies this
      ensures Valid() && history == if resetBuckets then [] else old(history)
    {
      if resetBuckets {
        cache := map[];
        buckets := map[];
        history := [];
      }
    }
  }
}
