/** What the buckets of `plugins/aggregators/histogram/histogram.go` count, and how the counts are told. */
module HistogramSpec {
  import opened Options
  import opened Samples

  // ---------- borders ----------

  ghost predicate Ascending(b: seq<real>) {
    forall i, j :: 0 <= i <= j < |b| ==> b[i] <= b[j]
  }

  function Insert(x: real, b: seq<real>): seq<real> {
    if b == [] || x <= b[0] then [x] + b else [b[0]] + Insert(x, b[1..])
  }

  /** `sort.Float64s` */
  function Sort(b: seq<real>): seq<real> {
    if b == [] then [] else Insert(b[0], Sort(b[1..]))
  }

  lemma {:induction false} InsertSorts(x: real, b: seq<real>)
    requires Ascending(b)
    ensures Ascending(Insert(x, b)) && multiset(Insert(x, b)) == multiset(b) + multiset{x}
    ensures Insert(x, b) != [] && Insert(x, b)[0] == if b == [] || x <= b[0] then x else b[0]
  {
    if b != [] && x > b[0] {
      assert b == [b[0]] + b[1..];
      InsertSorts(x, b[1..]);
    }
  }

  /** The borders in use are the configured ones, in order. */
  lemma {:induction false} SortSorts(b: seq<real>)
    ensures Ascending(Sort(b)) && multiset(Sort(b)) == multiset(b)
  {
    if b != [] {
      SortSorts(b[1..]);
      InsertSorts(b[0], Sort(b[1..]));
      assert b == [b[0]] + b[1..];
    }
  }

  lemma {:induction false} SortKeeps(b: seq<real>)
    requires forall i :: 0 < i < |b| ==> b[i - 1] <= b[i]
    ensures Sort(b) == b
  {
    if b != [] {
      SortKeeps(b[1..]);
      assert |b| > 1 ==> b[0] <= b[1];
    }
  }

  lemma SortTwice(b: seq<real>)
    ensures Sort(Sort(b)) == Sort(b)
  {
    SortSorts(b);
    SortKeeps(Sort(b));
  }

  // ---------- counts ----------

  /** The value lies in bucket `i`: above the border on its left, not above the one on its right. */
  ghost predicate Falls(borders: seq<real>, x: real, i: nat) {
    && i <= |borders|
    && (i < |borders| ==> x <= borders[i])
    && (0 < i ==> borders[i - 1] < x)
  }

  ghost function Hits(xs: seq<real>, borders: seq<real>, i: nat): nat {
    if xs == [] then 0
    else Hits(xs[..|xs| - 1], borders, i) + if Falls(borders, xs[|xs| - 1], i) then 1 else 0
  }

  /** How many values are not above border `i`; none is above the border behind the last. */
  ghost function AtMost(xs: seq<real>, borders: seq<real>, i: nat): nat {
    if xs == [] then 0
    else AtMost(xs[..|xs| - 1], borders, i) +
         if i < |borders| && xs[|xs| - 1] > borders[i] then 0 else 1
  }

  ghost predicate Tallies(counts: seq<nat>, borders: seq<real>, xs: seq<real>) {
    |counts| == |borders| + 1 && forall i :: 0 <= i < |counts| ==> counts[i] == Hits(xs, borders, i)
  }

  lemma TalliesNothing(borders: seq<real>)
    ensures Tallies(seq(|borders| + 1, _ => 0), borders, [])
  {
  }

  /** A value falls into one bucket, so one more hit there counts one more value. */
  lemma TalliesOneMore(counts: seq<nat>, borders: seq<real>, xs: seq<real>, x: real, i: nat)
    requires Ascending(borders) && Tallies(counts, borders, xs) && Falls(borders, x, i)
    ensures i < |counts| && Tallies(counts[i := counts[i] + 1], borders, xs + [x])
  {
    assert (xs + [x])[..|xs|] == xs;
    forall j | 0 <= j <= |borders|
      ensures Hits(xs + [x], borders, j) == Hits(xs, borders, j) + if j == i then 1 else 0
    {
      assert i < j ==> borders[i] <= borders[j - 1];
      assert j < i ==> borders[j] <= borders[i - 1];
    }
  }

  lemma {:induction false} AtMostStep(xs: seq<real>, borders: seq<real>, i: nat)
    requires Ascending(borders) && 0 < i <= |borders|
    ensures AtMost(xs, borders, i) == AtMost(xs, borders, i - 1) + Hits(xs, borders, i)
  {
    if xs != [] {
      AtMostStep(xs[..|xs| - 1], borders, i);
      assert i < |borders| ==> borders[i - 1] <= borders[i];
    }
  }

  lemma {:induction false} AtMostFirst(xs: seq<real>, borders: seq<real>)
    ensures AtMost(xs, borders, 0) == Hits(xs, borders, 0)
  {
    if xs != [] {
      AtMostFirst(xs[..|xs| - 1], borders);
    }
  }

  lemma {:induction false} AtMostAll(xs: seq<real>, borders: seq<real>)
    ensures AtMost(xs, borders, |borders|) == |xs|
  {
    if xs != [] {
      AtMostAll(xs[..|xs| - 1], borders);
    }
  }

  function Sum(counts: seq<nat>): nat {
    if counts == [] then 0 else Sum(counts[..|counts| - 1]) + counts[|counts| - 1]
  }

  /**
    The running sum over the buckets up to a border is the number of values not above that
    border, and the sum over all buckets is the number of values.
  */
  lemma {:induction false} CumulativeCounts(counts: seq<nat>, borders: seq<real>, xs: seq<real>, i: nat)
    requires Ascending(borders) && Tallies(counts, borders, xs) && i <= |borders|
    ensures Sum(counts[..i + 1]) == AtMost(xs, borders, i)
    ensures i == |borders| ==> Sum(counts[..i + 1]) == |xs|
  {
    assert counts[..i + 1][..i] == counts[..i];
    if i == 0 {
      AtMostFirst(xs, borders);
    } else {
      CumulativeCounts(counts, borders, xs, i - 1);
      AtMostStep(xs, borders, i);
    }
    AtMostAll(xs, borders);
  }

  // ---------- grouping ----------

  /** One count to be told. */
  datatype Line = Line(name: string, tags: map<string, string>, field: string, count: nat)

  /** A metric to be pushed. */
  datatype Group = Group(name: string, tags: map<string, string>, fields: map<string, nat>)

  /** Tags are compared one way only, and a missing tag reads as an empty one. */
  predicate TagsIdentical(a: map<string, string>, b: map<string, string>) {
    |a| == |b| && forall k <- a :: a[k] == if k in b then b[k] else ""
  }

  ghost predicate NoEmptyTag(tags: map<string, string>) {
    forall k <- tags :: tags[k] != ""
  }

  lemma {:induction false} SameSize(a: set<string>, b: set<string>)
    requires a <= b && |a| == |b|
    ensures a == b
  {
    if k :| k in b && k !in a {
      assert a <= b - {k};
      Smaller(a, b - {k});
    }
  }

  lemma {:induction false} Smaller(a: set<string>, b: set<string>)
    requires a <= b
    ensures |a| <= |b|
  {
    if a != {} {
      var k :| k in a;
      Smaller(a - {k}, b - {k});
    }
  }

  /** The comparison is equality for tags without an empty value... */
  lemma IdenticalIsEqual(a: map<string, string>, b: map<string, string>)
    requires NoEmptyTag(a)
    ensures TagsIdentical(a, b) <==> a == b
  {
    if TagsIdentical(a, b) {
      assert a.Keys <= b.Keys;
      SameSize(a.Keys, b.Keys);
      assert a == b;
    }
  }

  /** ...and for every other tags it takes some different ones for identical. */
  lemma EmptyTagMistaken(a: map<string, string>, k: string, other: string, v: string)
    requires k in a && a[k] == "" && other !in a
    ensures !NoEmptyTag(a)
    ensures var b := (a - {k})[other := v]; TagsIdentical(a, b) && a != b
  {
    var b := (a - {k})[other := v];
    assert b.Keys == a.Keys - {k} + {other};
    assert |b| == |b.Keys| == |a.Keys|;
  }

  function Where(groups: seq<Group>, l: Line): (k: nat)
    ensures k <= |groups|
    ensures k < |groups| ==> groups[k].name == l.name && TagsIdentical(l.tags, groups[k].tags)
    ensures forall j :: 0 <= j < k ==> !(groups[j].name == l.name && TagsIdentical(l.tags, groups[j].tags))
  {
    if groups == [] then 0
    else if groups[0].name == l.name && TagsIdentical(l.tags, groups[0].tags) then 0
    else 1 + Where(groups[1..], l)
  }

  /** The groups with one more line. */
  function Put(groups: seq<Group>, l: Line): seq<Group> {
    var k := Where(groups, l);
    if k < |groups| then groups[k := groups[k].(fields := groups[k].fields[l.field := l.count])]
    else groups + [Group(l.name, l.tags, map[l.field := l.count])]
  }

  function PutAll(lines: seq<Line>): seq<Group> {
    if lines == [] then [] else Put(PutAll(lines[..|lines| - 1]), lines[|lines| - 1])
  }

  ghost predicate Tells(g: Group, l: Line) {
    g.name == l.name && g.tags == l.tags && l.field in g.fields && g.fields[l.field] == l.count
  }

  /** Lines for the same field of the same metric agree. */
  ghost predicate Consistent(lines: seq<Line>) {
    forall a, b :: a in lines && b in lines ==> a.(count := 0) == b.(count := 0) ==> a == b
  }

  /** The line passes for one of another metric. */
  ghost predicate Mistakable(a: Line, b: Line) {
    a.name == b.name && TagsIdentical(a.tags, b.tags) && a.tags != b.tags
  }

  ghost predicate Unmistaken(lines: seq<Line>) {
    forall a, b :: a in lines && b in lines ==> !Mistakable(a, b)
  }

  ghost predicate Distinct(groups: seq<Group>) {
    forall i, j :: 0 <= i < j < |groups| ==> groups[i].name != groups[j].name || groups[i].tags != groups[j].tags
  }

  ghost predicate TellsLine(groups: seq<Group>, l: Line) {
    exists k :: 0 <= k < |groups| && Tells(groups[k], l)
  }

  ghost predicate AllTold(groups: seq<Group>, lines: seq<Line>) {
    forall l <- lines :: TellsLine(groups, l)
  }

  ghost predicate NothingElse(groups: seq<Group>, lines: seq<Line>) {
    forall k, f :: 0 <= k < |groups| && f in groups[k].fields ==>
      Line(groups[k].name, groups[k].tags, f, groups[k].fields[f]) in lines
  }

  /** The groups tell exactly the lines, each metric once. */
  ghost predicate Grouped(groups: seq<Group>, lines: seq<Line>) {
    Distinct(groups) && AllTold(groups, lines) && NothingElse(groups, lines)
  }

  /** Every group was started by a line with its name and tags. */
  ghost predicate Sourced(groups: seq<Group>, lines: seq<Line>) {
    forall k :: 0 <= k < |groups| ==> exists l :: l in lines && l.name == groups[k].name && l.tags == groups[k].tags
  }

  lemma PutSourced(groups: seq<Group>, lines: seq<Line>, l: Line)
    requires Sourced(groups, lines)
    ensures Sourced(Put(groups, l), lines + [l])
  {
    hide TagsIdentical, Where;
    var now := Put(groups, l);
    forall k | 0 <= k < |now| ensures exists m :: m in lines + [l] && m.name == now[k].name && m.tags == now[k].tags {
      if k < |groups| {
        var m :| m in lines && m.name == groups[k].name && m.tags == groups[k].tags;
        assert m in lines + [l];
      } else {
        assert l in lines + [l];
      }
    }
  }

  /** A line that cannot be mistaken joins the group that tells of its metric, or a group of its own. */
  lemma PutFinds(groups: seq<Group>, lines: seq<Line>, l: Line)
    requires Sourced(groups, lines) && Unmistaken(lines + [l])
    ensures var k := Where(groups, l);
      && (k < |groups| ==> groups[k].name == l.name && groups[k].tags == l.tags)
      && forall j :: 0 <= j < k ==> groups[j].name != l.name || groups[j].tags != l.tags
  {
    hide TagsIdentical;
    var k := Where(groups, l);
    if k < |groups| {
      var m :| m in lines && m.name == groups[k].name && m.tags == groups[k].tags;
      assert m in lines + [l] && l in lines + [l] && !Mistakable(l, m);
    }
    forall j | 0 <= j < k ensures groups[j].name != l.name || groups[j].tags != l.tags {
      SelfIdentical(l.tags);
    }
  }

  lemma SelfIdentical(tags: map<string, string>)
    ensures TagsIdentical(tags, tags)
  {
  }

  /** What was told of other fields, and what agrees with the new line, is still told. */
  lemma PutKeeps(groups: seq<Group>, l: Line, m: Line)
    requires TellsLine(groups, m) && (m.(count := 0) == l.(count := 0) ==> m == l)
    requires Where(groups, l) < |groups| ==>
      groups[Where(groups, l)].name == l.name && groups[Where(groups, l)].tags == l.tags
    ensures TellsLine(Put(groups, l), m)
  {
    var k :| 0 <= k < |groups| && Tells(groups[k], m);
    assert Tells(Put(groups, l)[k], m);
  }

  lemma PutTells(groups: seq<Group>, lines: seq<Line>, l: Line)
    requires Grouped(groups, lines) && Sourced(groups, lines) && Unmistaken(lines + [l]) && Consistent(lines + [l])
    ensures Grouped(Put(groups, l), lines + [l])
  {
    hide Where, TellsLine, Unmistaken, Sourced;
    PutFinds(groups, lines, l);
    forall m | m in lines ensures TellsLine(Put(groups, l), m) {
      assert m in lines + [l] && l in lines + [l];
      PutKeeps(groups, l, m);
    }
    PutTellsLine(groups, l);
  }

  lemma PutTellsLine(groups: seq<Group>, l: Line)
    requires Where(groups, l) < |groups| ==>
      groups[Where(groups, l)].name == l.name && groups[Where(groups, l)].tags == l.tags
    ensures TellsLine(Put(groups, l), l)
  {
    assert Tells(Put(groups, l)[Where(groups, l)], l);
  }

  /**
    If no line can be mistaken for one of another metric and lines do not contradict each
    other, every line is told by the metric with its name and tags, nothing else is told, and
    no metric comes twice.
  */
  lemma {:induction false} GroupingTells(lines: seq<Line>)
    requires Consistent(lines) && Unmistaken(lines)
    ensures Grouped(PutAll(lines), lines) && Sourced(PutAll(lines), lines)
  {
    hide Put, Grouped, Sourced, Mistakable;
    if lines == [] {
      assert Grouped([], []) && Sourced([], []) by { NothingGrouped(); }
    } else {
      var init, l := lines[..|lines| - 1], lines[|lines| - 1];
      assert lines == init + [l];
      GroupingTells(init);
      PutTells(PutAll(init), init, l);
      PutSourced(PutAll(init), init, l);
    }
  }

  lemma NothingGrouped()
    ensures Grouped([], []) && Sourced([], [])
  {
  }

  /** No two groups have the same name and tags, whatever the lines are. */
  lemma {:induction false} AlwaysDistinct(lines: seq<Line>)
    ensures Distinct(PutAll(lines))
  {
    hide TagsIdentical;
    if lines != [] {
      AlwaysDistinct(lines[..|lines| - 1]);
      SelfIdentical(lines[|lines| - 1].tags);
    }
  }

  /** Lines that contradict each other are not all told. */
  lemma ContradictionsNotTold(lines: seq<Line>)
    requires AllTold(PutAll(lines), lines)
    ensures Consistent(lines)
  {
    hide PutAll;
    AlwaysDistinct(lines);
    var groups := PutAll(lines);
    forall a, b | a in lines && b in lines && a.(count := 0) == b.(count := 0) ensures a == b {
      assert TellsLine(groups, a) && TellsLine(groups, b);
      var i :| 0 <= i < |groups| && Tells(groups[i], a);
      var j :| 0 <= j < |groups| && Tells(groups[j], b);
      assert i == j;
    }
  }

  /** A line that comes after one it can be mistaken for is never told. */
  lemma {:induction false} MistakenLater(a: Line, b: Line, rest: seq<Line>)
    requires Mistakable(a, b)
    ensures var groups := PutAll([b, a] + rest);
      && groups != [] && groups[0].name == b.name && groups[0].tags == b.tags
      && forall k :: 0 <= k < |groups| ==> groups[k].name != a.name || groups[k].tags != a.tags
  {
    hide TagsIdentical;
    var lines := [b, a] + rest;
    if rest == [] {
      assert lines == [b, a] && lines[..1] == [b] && [b][..0] == [];
      assert PutAll([b]) == [Group(b.name, b.tags, map[b.field := b.count])];
    } else {
      assert lines[..|lines| - 1] == [b, a] + rest[..|rest| - 1];
      MistakenLater(a, b, rest[..|rest| - 1]);
      MistakenStays(PutAll(lines[..|lines| - 1]), a, b, lines[|lines| - 1]);
    }
  }

  lemma MistakenStays(groups: seq<Group>, a: Line, b: Line, l: Line)
    requires Mistakable(a, b) && groups != [] && groups[0].name == b.name && groups[0].tags == b.tags
    requires forall k :: 0 <= k < |groups| ==> groups[k].name != a.name || groups[k].tags != a.tags
    ensures var now := Put(groups, l);
      && now != [] && now[0].name == b.name && now[0].tags == b.tags
      && forall k :: 0 <= k < |now| ==> now[k].name != a.name || now[k].tags != a.tags
  {
    hide TagsIdentical;
  }

  lemma ToFront(lines: seq<Line>, x: Line) returns (rest: seq<Line>)
    requires x in lines
    ensures multiset([x] + rest) == multiset(lines)
  {
    var i :| 0 <= i < |lines| && lines[i] == x;
    rest := lines[..i] + lines[i + 1..];
    assert lines == lines[..i] + [x] + lines[i + 1..];
  }

  lemma SameLines(p: seq<Line>, lines: seq<Line>, l: Line)
    requires multiset(p) == multiset(lines)
    ensures l in p <==> l in lines
  {
    assert l in p <==> l in multiset(p);
    assert l in lines <==> l in multiset(lines);
  }

  /** Two lines that can be mistaken fail in some order. */
  lemma MistakenInSomeOrder(lines: seq<Line>, a: Line, b: Line) returns (p: seq<Line>)
    requires a in lines && b in lines && Mistakable(a, b)
    ensures multiset(p) == multiset(lines) && !AllTold(PutAll(p), p)
  {
    hide PutAll, Mistakable;
    var r1 := ToFront(lines, b);
    assert a != b by { MistakableDiffer(a, b); }
    SameLines([b] + r1, lines, a);
    assert a in r1;
    var r2 := ToFront(r1, a);
    p := [b, a] + r2;
    assert p == [b] + ([a] + r2);
    assert multiset(p) == multiset([b]) + multiset([a] + r2) == multiset([b]) + multiset(r1) == multiset([b] + r1);
    MistakenLater(a, b, r2);
    assert p[1] == a;
    assert AllTold(PutAll(p), p) ==> TellsLine(PutAll(p), a);
  }

  lemma MistakableDiffer(a: Line, b: Line)
    requires Mistakable(a, b)
    ensures a != b
  {
  }

  lemma InSomeOrder(lines: seq<Line>)
    ensures !Consistent(lines) ==> exists p: seq<Line> :: multiset(p) == multiset(lines) && !AllTold(PutAll(p), p)
  {
    hide PutAll;
    if AllTold(PutAll(lines), lines) {
      ContradictionsNotTold(lines);
    }
  }

  /**
    The exact condition: lines are told in whatever order they come if and only if they do not
    contradict each other and none can be mistaken for a line of another metric.
  */
  lemma ToldInEveryOrder(lines: seq<Line>)
    ensures (forall p: seq<Line> :: multiset(p) == multiset(lines) ==> AllTold(PutAll(p), p))
      <==> Consistent(lines) && Unmistaken(lines)
  {
    hide PutAll, Mistakable, AllTold;
    if Consistent(lines) && Unmistaken(lines) {
      forall p: seq<Line> | multiset(p) == multiset(lines) ensures AllTold(PutAll(p), p) {
        forall l ensures l in p <==> l in lines {
          SameLines(p, lines, l);
        }
        GroupingTells(p);
      }
    } else if !Consistent(lines) {
      InSomeOrder(lines);
    } else {
      var a, b :| a in lines && b in lines && Mistakable(a, b);
      var p := MistakenInSomeOrder(lines, a, b);
    }
  }

  // ---------- histories ----------

  /** Borders for some fields of a metric, or for all if none is named; they may be left out. */
  datatype Config = Config(metric: string, fields: seq<string>, buckets: Option<seq<real>>)

  predicate Applies(c: Config, metric: string, field: string) {
    c.metric == metric && (c.fields == [] || field in c.fields)
  }

  /** The borders for a field: of the configurations that apply, the last one counts. */
  function Chosen(configs: seq<Config>, metric: string, field: string): Option<seq<real>> {
    if configs == [] then None
    else
      var c := configs[|configs| - 1];
      if !Applies(c, metric, field) then Chosen(configs[..|configs| - 1], metric, field)
      else if c.buckets.None? then None
      else Some(Sort(c.buckets.value))
  }

  lemma {:induction false} ChosenAscends(configs: seq<Config>, metric: string, field: string)
    ensures Chosen(configs, metric, field).Some? ==> Ascending(Chosen(configs, metric, field).value)
  {
    if configs != [] {
      ChosenAscends(configs[..|configs| - 1], metric, field);
      if configs[|configs| - 1].buckets.Some? {
        SortSorts(configs[|configs| - 1].buckets.value);
      }
    }
  }

  /** The configuration names the metric, and the field or no field at all. */
  ghost predicate Configured(c: Config, metric: string, field: string) {
    c.metric == metric && (|c.fields| == 0 || exists j :: 0 <= j < |c.fields| && c.fields[j] == field)
  }

  /** Which borders a field gets: those of the last configuration for it, in order, if it has any. */
  lemma {:induction false} ChosenIs(configs: seq<Config>, metric: string, field: string, b: seq<real>)
    ensures Chosen(configs, metric, field) == Some(b) <==>
      exists i :: 0 <= i < |configs| && Configured(configs[i], metric, field) &&
        (forall k :: i < k < |configs| ==> !Configured(configs[k], metric, field)) &&
        configs[i].buckets.Some? && Ascending(b) && multiset(b) == multiset(configs[i].buckets.value)
  {
    hide Configured, Ascending, Applies;
    if configs != [] {
      var n := |configs| - 1;
      AppliesIs(configs[n], metric, field);
      ChosenIs(configs[..n], metric, field, b);
      assert forall i :: 0 <= i < n ==> configs[..n][i] == configs[i];
      if Configured(configs[n], metric, field) && configs[n].buckets.Some? {
        var raw := configs[n].buckets.value;
        SortSorts(raw);
        if Ascending(b) && multiset(b) == multiset(raw) {
          SortedUnique(b, Sort(raw));
        }
      }
    }
  }

  lemma AppliesIs(c: Config, metric: string, field: string)
    ensures Applies(c, metric, field) <==> Configured(c, metric, field)
  {
  }

  /** There is one way to put numbers in order. */
  lemma {:induction false} SortedUnique(a: seq<real>, b: seq<real>)
    requires Ascending(a) && Ascending(b) && multiset(a) == multiset(b)
    ensures a == b
  {
    hide Ascending;
    assert |multiset(a)| == |a| && |multiset(b)| == |b|;
    if a != [] {
      assert a[0] in multiset(b) && b[0] in multiset(a);
      FirstIsLeast(a, b[0]);
      FirstIsLeast(b, a[0]);
      SameTail(a, b);
      SortedUnique(a[1..], b[1..]);
      assert a == [a[0]] + a[1..] && b == [b[0]] + b[1..];
    }
  }

  lemma SameTail(a: seq<real>, b: seq<real>)
    requires a != [] && b != [] && a[0] == b[0] && multiset(a) == multiset(b)
    ensures multiset(a[1..]) == multiset(b[1..])
  {
    assert a == [a[0]] + a[1..] && b == [b[0]] + b[1..];
    assert multiset(a) - multiset{a[0]} == multiset(a[1..]);
    assert multiset(b) - multiset{b[0]} == multiset(b[1..]);
  }

  lemma FirstIsLeast(a: seq<real>, x: real)
    requires Ascending(a) && a != [] && x in multiset(a)
    ensures a[0] <= x && Ascending(a[1..])
  {
  }

  // ---------- lines ----------

  const RIGHT := "le"
  const LEFT := "gt"
  const POSITIVE_INFINITY := "+Inf"
  const NEGATIVE_INFINITY := "-Inf"

  /** `strconv.FormatFloat` is a parameter. */
  function Label(format: real -> string, x: real): string {
    format(x)
  }

  /** The tags of a bucket: its borders on top of the tags of the series. */
  function BucketTags(cumulative: bool, format: real -> string, tags: map<string, string>, borders: seq<real>, i: nat)
    : map<string, string>
    requires i <= |borders|
  {
    var left := if i == 0 then NEGATIVE_INFINITY else Label(format, borders[i - 1]);
    var right := if i < |borders| then Label(format, borders[i]) else POSITIVE_INFINITY;
    (if cumulative then tags else tags[LEFT := left])[RIGHT := right]
  }

  /** The number to be told of a bucket, in terms of the values themselves. */
  ghost function Told(cumulative: bool, xs: seq<real>, borders: seq<real>, i: nat): nat {
    if cumulative then AtMost(xs, borders, i) else Hits(xs, borders, i)
  }

  ghost function LineAt(cumulative: bool, format: real -> string, s: Series, f: string, borders: seq<real>,
                        xs: seq<real>, i: nat): Line
    requires i <= |borders|
  {
    Line(s.name, BucketTags(cumulative, format, s.tags, borders, i), f, Told(cumulative, xs, borders, i))
  }

  /** The values that lie between the borders of a bucket, or not above it, by their places. */
  ghost function Between(xs: seq<real>, borders: seq<real>, i: nat, cumulative: bool): set<nat>
    requires i <= |borders|
  {
    set j: nat | j < |xs| &&
      (i < |borders| ==> xs[j] <= borders[i]) && (!cumulative && 0 < i ==> borders[i - 1] < xs[j])
  }

  lemma BetweenOneMore(xs: seq<real>, borders: seq<real>, i: nat, cumulative: bool)
    requires i <= |borders| && xs != []
    ensures var n := |xs| - 1;
      |Between(xs, borders, i, cumulative)| == |Between(xs[..n], borders, i, cumulative)| +
        if (i < |borders| ==> xs[n] <= borders[i]) && (!cumulative && 0 < i ==> borders[i - 1] < xs[n]) then 1 else 0
  {
    var n := |xs| - 1;
    var now, before := Between(xs, borders, i, cumulative), Between(xs[..n], borders, i, cumulative);
    assert n !in before && now == if n in now then before + {n} else before;
  }

  lemma {:induction false} ToldIsSize(cumulative: bool, xs: seq<real>, borders: seq<real>, i: nat)
    requires i <= |borders|
    ensures Told(cumulative, xs, borders, i) == |Between(xs, borders, i, cumulative)|
  {
    if xs == [] {
      assert Between(xs, borders, i, cumulative) == {};
    } else {
      var n := |xs| - 1;
      ToldIsSize(cumulative, xs[..n], borders, i);
      BetweenOneMore(xs, borders, i, cumulative);
    }
  }

  /**
    The line of a bucket: under "le" its right border, or "+Inf" for the last bucket; unless it is
    cumulative, under "gt" its left border, or "-Inf" for the first; all other tags those of the
    series; and how many values are not above the right border and, unless it is cumulative,
    above the left one.
  */
  lemma LineIs(cumulative: bool, format: real -> string, s: Series, f: string, borders: seq<real>, xs: seq<real>,
               i: nat)
    requires i <= |borders|
    ensures var l := LineAt(cumulative, format, s, f, borders, xs, i);
      && l.name == s.name && l.field == f && l.count == |Between(xs, borders, i, cumulative)|
      && "le" in l.tags && l.tags["le"] == (if i == |borders| then "+Inf" else format(borders[i]))
      && (!cumulative ==> "gt" in l.tags && l.tags["gt"] == if i == 0 then "-Inf" else format(borders[i - 1]))
      && (forall k :: k != "le" && (cumulative || k != "gt") ==>
            (k in l.tags <==> k in s.tags) && (k in s.tags ==> l.tags[k] == s.tags[k]))
  {
    ToldIsSize(cumulative, xs, borders, i);
    assert LEFT[0] != RIGHT[0];
  }

  /** Labels of the borders are never empty, tell borders apart and are not those of the infinities. */
  ghost predicate FaithfulLabels(format: real -> string, borders: seq<real>) {
    && (forall x <- borders :: Label(format, x) !in {"", POSITIVE_INFINITY, NEGATIVE_INFINITY})
    && (forall x, y :: x in borders && y in borders ==> Label(format, x) == Label(format, y) ==> x == y)
  }

  /** The tags that a bucket writes. */
  function BorderTags(cumulative: bool): set<string> {
    if cumulative then {RIGHT} else {LEFT, RIGHT}
  }

  /** Where a border first comes, or the number of borders. */
  function FirstAt(borders: seq<real>, x: real): (i: nat)
    ensures i <= |borders| && (x in borders <==> i < |borders|)
    ensures i < |borders| ==> borders[i] == x
  {
    if borders == [] then 0 else if borders[0] == x then 0 else 1 + FirstAt(borders[1..], x)
  }

  /** Labels of any finite number of borders can be faithful: tallies, for instance. */
  lemma FaithfulLabelsExist(borders: seq<real>)
    ensures FaithfulLabels(x => seq(FirstAt(borders, x) + 1, _ => 'I'), borders)
  {
    var format: real -> string := x => seq(FirstAt(borders, x) + 1, _ => 'I');
    forall x ensures format(x)[0] == 'I' && |format(x)| == FirstAt(borders, x) + 1 {
    }
    assert POSITIVE_INFINITY[0] == '+' && NEGATIVE_INFINITY[0] == '-';
  }

  /** The series has no empty tag and none that its buckets write. */
  ghost predicate PlainTags(cumulative: bool, tags: map<string, string>) {
    NoEmptyTag(tags) && tags.Keys !! BorderTags(cumulative)
  }

  lemma BucketTagsKeepSeries(cumulative: bool, format: real -> string, tags: map<string, string>, borders: seq<real>,
                             i: nat)
    requires i <= |borders| && PlainTags(cumulative, tags) && FaithfulLabels(format, borders)
    ensures BucketTags(cumulative, format, tags, borders, i) - BorderTags(cumulative) == tags
    ensures NoEmptyTag(BucketTags(cumulative, format, tags, borders, i))
  {
    assert LEFT[0] != RIGHT[0];
    assert POSITIVE_INFINITY[0] == '+' && NEGATIVE_INFINITY[0] == '-';
    assert 0 < i ==> borders[i - 1] in borders;
    assert i < |borders| ==> borders[i] in borders;
  }

  lemma {:induction false} ToldByBorders(cumulative: bool, xs: seq<real>, borders: seq<real>, i: nat, j: nat)
    requires i <= |borders| && j <= |borders| && (i == |borders| <==> j == |borders|)
    requires i < |borders| ==> borders[i] == borders[j]
    requires !cumulative ==> (i == 0 <==> j == 0) && (i > 0 ==> borders[i - 1] == borders[j - 1])
    ensures Told(cumulative, xs, borders, i) == Told(cumulative, xs, borders, j)
  {
    if xs != [] {
      ToldByBorders(cumulative, xs[..|xs| - 1], borders, i, j);
    }
  }

  /** Buckets of one field with the same tags have the same borders, so the same is told of them. */
  lemma LinesAgree(cumulative: bool, format: real -> string, s: Series, f: string, borders: seq<real>, xs: seq<real>,
                   i: nat, j: nat)
    requires i <= |borders| && j <= |borders| && FaithfulLabels(format, borders)
    requires BucketTags(cumulative, format, s.tags, borders, i) == BucketTags(cumulative, format, s.tags, borders, j)
    ensures LineAt(cumulative, format, s, f, borders, xs, i) == LineAt(cumulative, format, s, f, borders, xs, j)
  {
    var a, b := BucketTags(cumulative, format, s.tags, borders, i), BucketTags(cumulative, format, s.tags, borders, j);
    assert LEFT[0] != RIGHT[0];
    assert a[RIGHT] == b[RIGHT];
    assert !cumulative ==> a[LEFT] == b[LEFT];
    assert forall k :: 0 <= k < |borders| ==> borders[k] in borders;
    ToldByBorders(cumulative, xs, borders, i, j);
  }

  /** A series with an empty tag can be told under the tags of another one. */
  lemma EmptyTagMerges(name: string, a: map<string, string>, k: string, other: string, v: string,
        f: string, c: nat, g: string, d: nat)
    requires k in a && a[k] == "" && other !in a
    ensures var b := (a - {k})[other := v];
      var groups := PutAll([Line(name, b, f, c), Line(name, a, g, d)]);
      groups == [Group(name, b, map[f := c][g := d])] && !TellsLine(groups, Line(name, a, g, d))
  {
    hide TagsIdentical;
    var b := (a - {k})[other := v];
    EmptyTagMistaken(a, k, other, v);
    var lines := [Line(name, b, f, c), Line(name, a, g, d)];
    assert lines[..1] == [lines[0]] && [lines[0]][..0] == [];
    assert PutAll([lines[0]]) == [Group(name, b, map[f := c])];
  }
}
