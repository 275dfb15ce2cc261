/** The series grouper of `metric/series_grouper.go`. */
module SeriesGrouper {
  import opened Options
  import opened Seqs
  import opened TagList
  import opened SeriesKey

  /** What identifies a metric of the grouper. */
  datatype Key = Key(name: string, tags: map<string, string>, tm: int)

  /** A field; a value of None is the nil that an unconvertible value becomes. */
  datatype Field<V> = Field(key: string, value: Option<V>)

  datatype Series<V> = Series(key: Key, fields: seq<Field<V>>)

  /** One call of `Add`. */
  datatype Point<V> = Point(key: Key, field: string, value: Option<V>)

  // ---------- fields ----------

  function FieldIndex<V>(fs: seq<Field<V>>, key: string): (i: nat)
    ensures i <= |fs|
    ensures i < |fs| ==> fs[i].key == key
    ensures forall k :: 0 <= k < i ==> fs[k].key != key
  {
    First(fs, (f: Field<V>) => f.key == key)
  }

  /** `AddField`: replace the value of a field, or append it. */
  function SetField<V>(fs: seq<Field<V>>, key: string, value: Option<V>): seq<Field<V>> {
    var i := FieldIndex(fs, key);
    if i < |fs| then fs[i := Field(key, value)] else fs + [Field(key, value)]
  }

  function GetField<V>(fs: seq<Field<V>>, key: string): Option<V> {
    var i := FieldIndex(fs, key);
    if i < |fs| then fs[i].value else None
  }

  lemma {:induction false} FieldIndexIs<V>(fs: seq<Field<V>>, key: string, i: nat)
    requires i <= |fs| && (i < |fs| ==> fs[i].key == key)
    requires forall k :: 0 <= k < i ==> fs[k].key != key
    ensures FieldIndex(fs, key) == i
  {
  }

  lemma GetSetField<V>(fs: seq<Field<V>>, key: string, value: Option<V>, other: string)
    ensures GetField(SetField(fs, key, value), other) == if other == key then value else GetField(fs, other)
  {
    hide FieldIndex;
    var fs', i, j := SetField(fs, key, value), FieldIndex(fs, key), FieldIndex(fs, other);
    if other == key {
      FieldIndexIs(fs', key, i);
    } else {
      FieldIndexIs(fs', other, if j < |fs| then j else |fs'|);
    }
  }

  // ---------- what grouping means ----------

  function SeriesIndex<V>(ss: seq<Series<V>>, key: Key): (i: nat)
    ensures i <= |ss|
    ensures i < |ss| ==> ss[i].key == key
    ensures forall k :: 0 <= k < i ==> ss[k].key != key
  {
    First(ss, (s: Series<V>) => s.key == key)
  }

  /** A new metric skips a value that cannot be converted. */
  function FirstFields<V>(field: string, value: Option<V>): seq<Field<V>> {
    if value.Some? then [Field(field, value)] else []
  }

  function AddPoint<V>(ss: seq<Series<V>>, p: Point<V>): seq<Series<V>> {
    var i := SeriesIndex(ss, p.key);
    if i < |ss| then ss[i := Series(p.key, SetField(ss[i].fields, p.field, p.value))]
    else ss + [Series(p.key, FirstFields(p.field, p.value))]
  }

  function Group<V>(ps: seq<Point<V>>): seq<Series<V>> {
    if ps == [] then [] else AddPoint(Group(ps[..|ps| - 1]), ps[|ps| - 1])
  }

  /** The keys of the points in the order of their first arrival. */
  function FirstSeen<V>(ps: seq<Point<V>>): seq<Key> {
    if ps == [] then []
    else
      var seen := FirstSeen(ps[..|ps| - 1]);
      if ps[|ps| - 1].key in seen then seen else seen + [ps[|ps| - 1].key]
  }

  /** The value that a field of a series was given last. */
  function LastValue<V>(ps: seq<Point<V>>, key: Key, field: string): Option<V> {
    if ps == [] then None
    else if ps[|ps| - 1].key == key && ps[|ps| - 1].field == field then ps[|ps| - 1].value
    else LastValue(ps[..|ps| - 1], key, field)
  }

  ghost function Keys<V>(ss: seq<Series<V>>): (ks: seq<Key>)
    ensures |ks| == |ss| && forall i :: 0 <= i < |ss| ==> ks[i] == ss[i].key
  {
    seq(|ss|, i requires 0 <= i < |ss| => ss[i].key)
  }

  lemma {:induction false} SeriesIndexIs<V>(ss: seq<Series<V>>, key: Key, i: nat)
    requires i <= |ss| && (i < |ss| ==> ss[i].key == key)
    requires forall k :: 0 <= k < i ==> ss[k].key != key
    ensures SeriesIndex(ss, key) == i
  {
  }

  lemma KeysAddPoint<V>(ss: seq<Series<V>>, p: Point<V>)
    ensures Keys(AddPoint(ss, p)) == if p.key in Keys(ss) then Keys(ss) else Keys(ss) + [p.key]
  {
    hide SeriesIndex, SetField, FirstFields;
    var i := SeriesIndex(ss, p.key);
    assert i < |ss| ==> Keys(ss)[i] == p.key;
  }

  lemma {:induction false} GroupKeys<V>(ps: seq<Point<V>>)
    ensures Keys(Group(ps)) == FirstSeen(ps)
  {
    hide AddPoint;
    if ps != [] {
      GroupKeys(ps[..|ps| - 1]);
      KeysAddPoint(Group(ps[..|ps| - 1]), ps[|ps| - 1]);
    }
  }

  lemma {:induction false} FirstSeenDistinct<V>(ps: seq<Point<V>>)
    ensures forall i, j :: 0 <= i < j < |FirstSeen(ps)| ==> FirstSeen(ps)[i] != FirstSeen(ps)[j]
  {
    if ps != [] {
      FirstSeenDistinct(ps[..|ps| - 1]);
    }
  }

  lemma {:induction false} FirstSeenComplete<V>(ps: seq<Point<V>>, k: Key)
    ensures k in FirstSeen(ps) <==> exists i :: 0 <= i < |ps| && ps[i].key == k
  {
    if ps != [] {
      var init, p := ps[..|ps| - 1], ps[|ps| - 1];
      FirstSeenComplete(init, k);
      assert k in FirstSeen(ps) <==> k in FirstSeen(init) || k == p.key;
      hide FirstSeen;
      assert forall i :: 0 <= i < |init| ==> init[i].key == ps[i].key;
      assert ps[|init|] == p;
    }
  }

  /** One metric for each series and time that was added, in the order of first arrival. */
  lemma {:induction false} GroupsOnceInOrder<V>(ps: seq<Point<V>>, k: Key)
    ensures Keys(Group(ps)) == FirstSeen(ps)
    ensures forall i, j :: 0 <= i < j < |Group(ps)| ==> Group(ps)[i].key != Group(ps)[j].key
    ensures k in Keys(Group(ps)) <==> exists i :: 0 <= i < |ps| && ps[i].key == k
  {
    GroupKeys(ps);
    FirstSeenDistinct(ps);
    FirstSeenComplete(ps, k);
    hide Group, FirstSeen;
    forall i, j | 0 <= i < j < |Group(ps)| ensures Group(ps)[i].key != Group(ps)[j].key {
      assert Keys(Group(ps))[i] != Keys(Group(ps))[j];
    }
  }

  /** The value of a field in the metric of a series; None if it is nil or absent. */
  function FieldValue<V>(ss: seq<Series<V>>, key: Key, field: string): Option<V> {
    var i := SeriesIndex(ss, key);
    if i < |ss| then GetField(ss[i].fields, field) else None
  }

  lemma FieldValueAdd<V>(ss: seq<Series<V>>, p: Point<V>, key: Key, field: string)
    ensures FieldValue(AddPoint(ss, p), key, field) ==
      if key == p.key && field == p.field then p.value else FieldValue(ss, key, field)
  {
    hide SeriesIndex, SetField, GetField;
    var i, j, ss' := SeriesIndex(ss, p.key), SeriesIndex(ss, key), AddPoint(ss, p);
    FirstFieldsHold(p.field, p.value, field);
    if key == p.key {
      SeriesIndexIs(ss', key, i);
      if i < |ss| {
        GetSetField(ss[i].fields, p.field, p.value, field);
      }
    } else {
      SeriesIndexIs(ss', key, if j < |ss| then j else |ss'|);
    }
  }

  lemma FirstFieldsHold<V>(field: string, value: Option<V>, other: string)
    ensures GetField(FirstFields(field, value), other) == if other == field then value else None
  {
  }

  /** Each metric holds the last value of each of its fields. */
  lemma {:induction false} LastValueWins<V>(ps: seq<Point<V>>, key: Key, field: string)
    ensures FieldValue(Group(ps), key, field) == LastValue(ps, key, field)
  {
    hide AddPoint, FieldValue;
    if ps == [] {
      NoSeries<V>(key, field);
    } else {
      LastValueWins(ps[..|ps| - 1], key, field);
      FieldValueAdd(Group(ps[..|ps| - 1]), ps[|ps| - 1], key, field);
    }
  }

  lemma NoSeries<V>(key: Key, field: string)
    ensures FieldValue<V>([], key, field) == None
  {
  }

  // ---------- the grouper ----------

  /** The sorted tag list of a map. */
  ghost function ListOf(m: map<string, string>): (l: Tags)
    ensures Sorted(l) && AsMap(l) == m
    decreases |m|
  {
    if m == map[] then []
    else
      var k :| k in m;
      RemoveOne(m, k);
      var l := ListOf(m - {k});
      SetTagSorted(l, k, m[k]);
      SetTagMap(l, k, m[k]);
      SetTag(l, k, m[k])
  }

  lemma RemoveOne(m: map<string, string>, k: string)
    requires k in m
    ensures |m - {k}| < |m| && (m - {k})[k := m[k]] == m
  {
    assert (m - {k}).Keys == m.Keys - {k};
  }

  ghost function StreamOf(key: Key): string {
    GroupStream(key.name, ListOf(key.tags), key.tm)
  }

  predicate PlainMap(m: map<string, string>) {
    forall k :: k in m ==> OneLine(k) && OneLine(m[k])
  }

  predicate PlainKey(key: Key) {
    OneLine(key.name) && PlainMap(key.tags)
  }

  lemma PlainListOf(m: map<string, string>)
    requires PlainMap(m)
    ensures PlainTags(ListOf(m))
  {
    var l := ListOf(m);
    forall i | 0 <= i < |l| ensures OneLine(l[i].key) && OneLine(l[i].value) {
      AsMapHolds(l, l[i]);
    }
  }

  /** The stream identifies the key. */
  lemma StreamIdentifies(a: Key, b: Key)
    requires PlainKey(a) && PlainKey(b)
    ensures StreamOf(a) == StreamOf(b) <==> a == b
  {
    PlainListOf(a.tags);
    PlainListOf(b.tags);
    GroupIdentity(a.name, ListOf(a.tags), a.tm, b.name, ListOf(b.tags), b.tm);
  }

  class Grouper<V> {
    const hash: string -> nat
    var metrics: map<nat, nat>      // the index in `ordered` of the metric of an id
    var ordered: seq<Series<V>>

    ghost function IdOf(key: Key): nat {
      hash(StreamOf(key))
    }

    ghost predicate Valid()
      reads this
    {
      && (forall i :: 0 <= i < |ordered| ==> IdOf(ordered[i].key) in metrics && metrics[IdOf(ordered[i].key)] == i)
      && (forall id :: id in metrics ==> metrics[id] < |ordered| && IdOf(ordered[metrics[id]].key) == id)
    }

    /** The id of a key is not that of another key grouped before. */
    ghost predicate ToldApart(key: Key)
      reads this
    {
      forall i :: 0 <= i < |ordered| ==> IdOf(ordered[i].key) == IdOf(key) ==> ordered[i].key == key
    }

    constructor (h: string -> nat)
      ensures Valid() && ordered == Group<V>([]) && hash == h
    {
      hash := h;
      metrics := map[];
      ordered := [];
    }

    /** Keys without newlines are told apart by a hash without collisions. */
    lemma PlainKeysToldApart(key: Key)
      requires forall s, t :: hash(s) == hash(t) ==> s == t
      requires PlainKey(key) && forall i :: 0 <= i < |ordered| ==> PlainKey(ordered[i].key)
      ensures ToldApart(key)
    {
      hide StreamOf, PlainKey;
      forall i | 0 <= i < |ordered| && IdOf(ordered[i].key) == IdOf(key) ensures ordered[i].key == key {
        StreamIdentifies(ordered[i].key, key);
      }
    }

    /** The id of a series and time: the hash of its stream. */
    method GroupID(key: Key) returns (id: nat)
      ensures id == hash(StreamOf(key))
    {
      hide ListOf, TagLines;
      var l := SortTags(key.tags);
      Canonical(l, ListOf(key.tags));
      var lines := "";
      NoLines(l);
      for i := 0 to |l|
        invariant lines == TagLines(l[..i])
      {
        TagLinesAppend(l, i);
        lines := lines + (l[i].key + [NL] + l[i].value + [NL]);
      }
      assert l[..|l|] == l;
      id := hash(key.name + [NL] + (lines + ([NL] + Decimal(key.tm))));
    }

    /** If ids tell keys apart, an id is known exactly when its key was grouped before, and leads to its metric. */
    lemma IdFinds(key: Key)
      requires Valid()
      ensures var i := SeriesIndex(ordered, key);
        && (i < |ordered| ==> IdOf(key) in metrics && metrics[IdOf(key)] == i)
        && (IdOf(key) in metrics ==> metrics[IdOf(key)] < |ordered|)
        && (ToldApart(key) <==> IdOf(key) !in metrics || i < |ordered|)
    {
      hide SeriesIndex, StreamOf;
      var i := SeriesIndex(ordered, key);
      if IdOf(key) in metrics && i == |ordered| {
        assert IdOf(ordered[metrics[IdOf(key)]].key) == IdOf(key);
      }
    }

    /**
      Add a field value to the metric of its series and time. That is what happens if and only
      if the id tells the key from those grouped before; otherwise another metric gets the field.
    */
    method Add(p: Point<V>)
      requires Valid()
      modifies this
      ensures Valid()
      ensures old(ToldApart(p.key)) <==> ordered == AddPoint(old(ordered), p)
      ensures metrics.Keys == old(metrics.Keys) + {IdOf(p.key)}
      ensures |ordered| == old(|ordered|) + if IdOf(p.key) in old(metrics) then 0 else 1
      ensures forall i :: 0 <= i < old(|ordered|) ==> ordered[i].key == old(ordered[i].key)
    {
      hide ListOf, SeriesIndex, StreamOf, SetField;
      var id := GroupID(p.key);
      IdFinds(p.key);
      if id !in metrics {
        metrics := metrics[id := |ordered|];
        ordered := ordered + [Series(p.key, FirstFields(p.field, p.value))];
      } else {
        var i := metrics[id];
        ordered := ordered[i := Series(ordered[i].key, SetField(ordered[i].fields, p.field, p.value))];
      }
    }
  }

  /** Different keys of the points have different ids. */
  ghost predicate IdsDiffer<V>(h: string -> nat, ps: seq<Point<V>>) {
    forall i, j :: 0 <= i < j < |ps| ==> h(StreamOf(ps[i].key)) == h(StreamOf(ps[j].key)) ==> ps[i].key == ps[j].key
  }

  /** Ids differ if keys have no newlines and the hash has no collisions. */
  lemma PlainIdsDiffer<V>(h: string -> nat, ps: seq<Point<V>>)
    requires (forall s, t :: h(s) == h(t) ==> s == t) && forall i :: 0 <= i < |ps| ==> PlainKey(ps[i].key)
    ensures IdsDiffer(h, ps)
  {
    hide StreamOf, PlainKey;
    forall i, j | 0 <= i < j < |ps| && h(StreamOf(ps[i].key)) == h(StreamOf(ps[j].key)) ensures ps[i].key == ps[j].key {
      StreamIdentifies(ps[i].key, ps[j].key);
    }
  }

  lemma NextIdDiffers<V>(g: Grouper<V>, ps: seq<Point<V>>, i: nat)
    requires i < |ps| && IdsDiffer(g.hash, ps[..i]) && g.ordered == Group(ps[..i])
    ensures IdsDiffer(g.hash, ps[..i + 1]) <==> g.ToldApart(ps[i].key)
  {
    hide StreamOf, Group;
    var key := ps[i].key;
    GroupKeys(ps[..i]);
    if g.ToldApart(key) {
      forall j | 0 <= j < i && g.IdOf(ps[j].key) == g.IdOf(key) ensures ps[j].key == key {
        FirstSeenComplete(ps[..i], ps[j].key);
        assert ps[..i][j].key == ps[j].key;
        assert ps[j].key in Keys(g.ordered);
      }
    }
    if IdsDiffer(g.hash, ps[..i + 1]) {
      forall j | 0 <= j < |g.ordered| && g.IdOf(g.ordered[j].key) == g.IdOf(key) ensures g.ordered[j].key == key {
        assert Keys(g.ordered)[j] in FirstSeen(ps[..i]);
        FirstSeenComplete(ps[..i], g.ordered[j].key);
        var k :| 0 <= k < i && ps[..i][k].key == g.ordered[j].key;
        assert ps[..i + 1][k] == ps[..i][k] && ps[..i + 1][i] == ps[i];
      }
    }
  }

  lemma IdsDifferPrefix<V>(h: string -> nat, ps: seq<Point<V>>, i: nat)
    requires i < |ps| && IdsDiffer(h, ps[..i + 1])
    ensures IdsDiffer(h, ps[..i])
  {
    hide StreamOf;
    assert forall j :: 0 <= j < i ==> ps[..i][j] == ps[..i + 1][j];
  }

  lemma GroupGrows<V>(ps: seq<Point<V>>, i: nat)
    requires i < |ps|
    ensures Group(ps[..i + 1]) == AddPoint(Group(ps[..i]), ps[i])
    ensures |Group(ps[..i + 1])| == |Group(ps[..i])| +
      if SeriesIndex(Group(ps[..i]), ps[i].key) < |Group(ps[..i])| then 0 else 1
  {
    assert ps[..i + 1][..i] == ps[..i];
  }

  lemma GroupedBefore<V>(ps: seq<Point<V>>, i: nat, key: Key) returns (j: nat)
    requires i <= |ps| && SeriesIndex(Group(ps[..i]), key) < |Group(ps[..i])|
    ensures j < i && ps[j].key == key
  {
    hide Group;
    GroupKeys(ps[..i]);
    FirstSeenComplete(ps[..i], key);
    assert Keys(Group(ps[..i]))[SeriesIndex(Group(ps[..i]), key)] == key;
    j :| 0 <= j < i && ps[..i][j].key == key;
  }

  /** The grouper has taken the first `i` points: in the right way exactly if their ids differ. */
  ghost predicate Follows<V>(g: Grouper<V>, ps: seq<Point<V>>, i: nat)
    reads g
    requires i <= |ps|
  {
    && g.Valid() && (forall j :: 0 <= j < i ==> g.IdOf(ps[j].key) in g.metrics)
    && if IdsDiffer(g.hash, ps[..i]) then g.ordered == Group(ps[..i]) else |g.ordered| < |Group(ps[..i])|
  }

  method AddNext<V>(g: Grouper<V>, ps: seq<Point<V>>, i: nat)
    requires i < |ps| && Follows(g, ps, i)
    modifies g
    ensures Follows(g, ps, i + 1)
  {
    hide StreamOf, Group, AddPoint, IdsDiffer, SeriesIndex;
    ghost var key := ps[i].key;
    GroupGrows(ps, i);
    g.IdFinds(key);
    if IdsDiffer(g.hash, ps[..i]) {
      NextIdDiffers(g, ps, i);
    } else {
      if IdsDiffer(g.hash, ps[..i + 1]) {
        IdsDifferPrefix(g.hash, ps, i);
      }
      if SeriesIndex(Group(ps[..i]), key) < |Group(ps[..i])| {
        ghost var j := GroupedBefore(ps, i, key);
      }
    }
    g.Add(ps[i]);
  }

  /**
    Group points, one by one: the result is one metric for each series and time, in the order
    of first arrival and with the last values, if and only if different keys have different ids.
  */
  method GroupPoints<V>(h: string -> nat, ps: seq<Point<V>>) returns (g: Grouper<V>)
    ensures g.Valid() && fresh(g)
    ensures g.ordered == Group(ps) <==> IdsDiffer(h, ps)
  {
    hide StreamOf, Group, IdsDiffer;
    g := new Grouper<V>(h);
    NoIds<V>(h, ps);
    for i := 0 to |ps|
      invariant fresh(g) && g.hash == h && Follows(g, ps, i)
    {
      AddNext(g, ps, i);
    }
    assert ps[..|ps|] == ps;
  }

  lemma NoIds<V>(h: string -> nat, ps: seq<Point<V>>)
    ensures IdsDiffer(h, ps[..0]) && Group(ps[..0]) == []
  {
  }

  lemma NoLines(l: Tags)
    ensures TagLines(l[..0]) == ""
  {
  }
}
