/** The canonical tag list of `metric/metric.go`, on values. */
module TagList {
  import opened Seqs
  import opened Strings

  datatype Pair = Pair(key: string, value: string)

  type Tags = seq<Pair>

  /** Strictly ascending by key. */
  ghost predicate Sorted(l: Tags) {
    forall i, j :: 0 <= i < j < |l| ==> Less(l[i].key, l[j].key)
  }

  /** The tags as a map, as `Tags()` returns them. */
  function AsMap(l: Tags): map<string, string> {
    if l == [] then map[] else AsMap(l[..|l| - 1])[l[|l| - 1].key := l[|l| - 1].value]
  }

  /** The first index whose key is not less than the given key. */
  function Slot(l: Tags, key: string): (i: nat)
    ensures i <= |l|
    ensures forall k :: 0 <= k < i ==> Less(l[k].key, key)
    ensures i < |l| ==> !Less(l[i].key, key)
  {
    if l == [] then 0
    else if Less(l[0].key, key) then 1 + Slot(l[1..], key)
    else 0
  }

  /** Set a tag: replace its value, or insert it in order. */
  function SetTag(l: Tags, key: string, value: string): Tags {
    var i := Slot(l, key);
    if i < |l| && l[i].key == key then l[i := Pair(key, value)]
    else InsertAt(l, i, Pair(key, value))
  }

  /** Remove a tag if it is there. */
  function DropTag(l: Tags, key: string): Tags {
    var i := Slot(l, key);
    if i < |l| && l[i].key == key then l[..i] + l[i + 1..] else l
  }

  /** A tag that a map holds. */
  predicate In(p: Pair, m: map<string, string>) {
    p.key in m && m[p.key] == p.value
  }

  lemma SameMap(m: map<string, string>, m': map<string, string>)
    requires forall p :: In(p, m) <==> In(p, m')
    ensures m == m'
  {
    forall k | k in m ensures k in m' && m'[k] == m[k] {
      assert In(Pair(k, m[k]), m);
    }
    forall k | k in m' ensures k in m {
      assert In(Pair(k, m'[k]), m');
    }
  }

  /** The map of a sorted list holds exactly the tags of the list. */
  lemma {:induction false} AsMapHolds(l: Tags, p: Pair)
    requires Sorted(l)
    ensures In(p, AsMap(l)) <==> p in l
  {
    if l != [] {
      var init, last := l[..|l| - 1], l[|l| - 1];
      AsMapHolds(init, p);
      assert p in l <==> p in init || p == last by {
        assert l == init + [last];
      }
      forall i | 0 <= i < |init| ensures init[i].key != last.key {
        LessAsymmetric(l[i].key, l[|l| - 1].key);
      }
    }
  }

  lemma SlotUnique(l: Tags, key: string, k: nat)
    requires Sorted(l) && k < |l| && l[k].key == key
    ensures k == Slot(l, key)
  {
    hide Slot;
    LessIrreflexive(key);
    assert Slot(l, key) <= k;
  }

  lemma SetTagSorted(l: Tags, key: string, value: string)
    requires Sorted(l)
    ensures Sorted(SetTag(l, key, value))
  {
    hide Slot;
    var i := Slot(l, key);
    if i < |l| {
      LessTotal(l[i].key, key);
    }
    if i < |l| && l[i].key != key {
      forall k | i <= k < |l| ensures Less(key, l[k].key) {
        if i < k {
          LessTransitive(key, l[i].key, l[k].key);
        }
      }
    }
  }

  lemma SetTagHolds(l: Tags, key: string, value: string, p: Pair)
    requires Sorted(l)
    ensures p in SetTag(l, key, value) <==> p == Pair(key, value) || (p in l && p.key != key)
  {
    hide Slot, Sorted;
    var i := Slot(l, key);
    var l' := SetTag(l, key, value);
    assert l'[i] == Pair(key, value);
    if p in l && p.key != key {
      var k :| 0 <= k < |l| && l[k] == p;
      var k' := if k < i || |l'| == |l| then k else k + 1;
      assert l'[k'] == p;
    }
    if p in l' && p != Pair(key, value) {
      var k :| 0 <= k < |l'| && l'[k] == p;
      var k' := if k < i || |l'| == |l| then k else k - 1;
      assert l[k'] == p;
      if p.key == key {
        SlotUnique(l, key, k');
      }
    }
  }

  /** Setting a tag in the list sets it in the map. */
  lemma SetTagMap(l: Tags, key: string, value: string)
    requires Sorted(l)
    ensures AsMap(SetTag(l, key, value)) == AsMap(l)[key := value]
  {
    hide AsMap, SetTag, Sorted;
    var l', m' := SetTag(l, key, value), AsMap(l)[key := value];
    SetTagSorted(l, key, value);
    forall p ensures In(p, AsMap(l')) <==> In(p, m') {
      AsMapHolds(l, p);
      AsMapHolds(l', p);
      SetTagHolds(l, key, value, p);
    }
    SameMap(AsMap(l'), m');
  }

  lemma DropTagSorted(l: Tags, key: string)
    requires Sorted(l)
    ensures Sorted(DropTag(l, key))
  {
    hide Slot;
  }

  lemma DropTagHolds(l: Tags, key: string, p: Pair)
    requires Sorted(l)
    ensures p in DropTag(l, key) <==> p in l && p.key != key
  {
    hide Slot;
    var i, l' := Slot(l, key), DropTag(l, key);
    if p in l && p.key != key {
      var k :| 0 <= k < |l| && l[k] == p;
      assert l'[if k < i || |l'| == |l| then k else k - 1] == p;
    }
    if p in l' {
      var k :| 0 <= k < |l'| && l'[k] == p;
      var k' := if k < i || |l'| == |l| then k else k + 1;
      assert l[k'] == p;
      if p.key == key {
        SlotUnique(l, key, k');
      }
    }
  }

  /** Removing a tag from the list removes it from the map. */
  lemma DropTagMap(l: Tags, key: string)
    requires Sorted(l)
    ensures AsMap(DropTag(l, key)) == AsMap(l) - {key}
  {
    hide AsMap, DropTag, Sorted;
    var l', m' := DropTag(l, key), AsMap(l) - {key};
    DropTagSorted(l, key);
    forall p ensures In(p, AsMap(l')) <==> In(p, m') {
      AsMapHolds(l, p);
      AsMapHolds(l', p);
      DropTagHolds(l, key, p);
    }
    SameMap(AsMap(l'), m');
  }

  /** Equal tag maps have identical lists. */
  lemma Canonical(a: Tags, b: Tags)
    requires Sorted(a) && Sorted(b) && AsMap(a) == AsMap(b)
    ensures a == b
  {
    forall p ensures p in a <==> p in b {
      AsMapHolds(a, p);
      AsMapHolds(b, p);
    }
    SameList(a, b);
  }

  lemma {:induction false} SameList(a: Tags, b: Tags)
    requires Sorted(a) && Sorted(b)
    requires forall p :: p in a <==> p in b
    ensures a == b
  {
    if a == [] {
      NoMembers(b);
    } else {
      assert a[0] in b;
      SameHead(a, b);
      forall p ensures p in a[1..] <==> p in b[1..] {
        TailHolds(a, p);
        TailHolds(b, p);
      }
      SameList(a[1..], b[1..]);
      assert a == [a[0]] + a[1..] && b == [b[0]] + b[1..];
    }
  }

  lemma NoMembers(l: Tags)
    ensures (forall p :: p !in l) ==> l == []
  {
    if l != [] {
      assert l[0] in l;
    }
  }

  lemma SameHead(a: Tags, b: Tags)
    requires Sorted(a) && Sorted(b) && a != [] && b != [] && a[0] in b && b[0] in a
    ensures a[0] == b[0]
  {
    var j :| 0 <= j < |b| && b[j] == a[0];
    var i :| 0 <= i < |a| && a[i] == b[0];
    if a[0] != b[0] {
      assert Less(a[0].key, a[i].key) && Less(b[0].key, b[j].key);
      LessAsymmetric(a[0].key, b[0].key);
    }
  }

  lemma TailHolds(l: Tags, p: Pair)
    requires Sorted(l) && l != []
    ensures p in l[1..] <==> p in l && p != l[0]
  {
    assert l == [l[0]] + l[1..];
    LessIrreflexive(l[0].key);
  }

  // ---------- the list of a map ----------

  /** The tags `m` are those done and those left. */
  predicate Parts(done: map<string, string>, rest: map<string, string>, m: map<string, string>) {
    done.Keys !! rest.Keys && done + rest == m
  }

  lemma PartsMove(done: map<string, string>, rest: map<string, string>, m: map<string, string>, k: string)
    requires Parts(done, rest, m) && k in rest
    ensures Parts(done[k := rest[k]], rest - {k}, m)
    ensures |rest - {k}| < |rest|
  {
    assert (rest - {k}).Keys == rest.Keys - {k};
    var done', rest' := done[k := rest[k]], rest - {k};
    assert (done' + rest').Keys == (done + rest).Keys;
    assert forall x :: x in m ==> (done' + rest')[x] == (done + rest)[x];
  }

  lemma PartsDone(done: map<string, string>, m: map<string, string>)
    requires Parts(done, map[], m)
    ensures done == m
  {
  }

  lemma NothingListed(m: map<string, string>)
    ensures Sorted([]) && Parts(AsMap([]), m, m)
  {
  }

  /** The sorted list of the tags of a map, which is read in any order. */
  method SortTags(m: map<string, string>) returns (l: Tags)
    ensures Sorted(l) && AsMap(l) == m
  {
    hide SetTag, AsMap, Sorted, Parts;
    l := [];
    NothingListed(m);
    var rest := m;
    while rest != map[]
      invariant Sorted(l) && Parts(AsMap(l), rest, m)
      decreases |rest|
    {
      var k :| k in rest;
      SetTagSorted(l, k, rest[k]);
      SetTagMap(l, k, rest[k]);
      PartsMove(AsMap(l), rest, m, k);
      l := SetTag(l, k, rest[k]);
      rest := rest - {k};
    }
    PartsDone(AsMap(l), m);
  }

  // ---------- every history of tag changes ----------

  datatype TagOp = Set(key: string, value: string) | Remove(key: string)

  /** A list after some changes. */
  function ListAfter(l: Tags, ops: seq<TagOp>): Tags {
    if ops == [] then l
    else
      var before := ListAfter(l, ops[..|ops| - 1]);
      match ops[|ops| - 1]
      case Set(k, v) => SetTag(before, k, v)
      case Remove(k) => DropTag(before, k)
  }

  function MapAfter(m: map<string, string>, ops: seq<TagOp>): map<string, string> {
    if ops == [] then m
    else
      var before := MapAfter(m, ops[..|ops| - 1]);
      match ops[|ops| - 1]
      case Set(k, v) => before[k := v]
      case Remove(k) => before - {k}
  }

  /** After any history of tag changes the list is strictly ascending and stands for the map. */
  lemma {:induction false} HistorySorted(l: Tags, ops: seq<TagOp>)
    requires Sorted(l)
    ensures Sorted(ListAfter(l, ops)) && AsMap(ListAfter(l, ops)) == MapAfter(AsMap(l), ops)
  {
    hide SetTag, DropTag;
    if ops != [] {
      var before := ListAfter(l, ops[..|ops| - 1]);
      HistorySorted(l, ops[..|ops| - 1]);
      match ops[|ops| - 1]
      case Set(k, v) =>
        SetTagSorted(before, k, v);
        SetTagMap(before, k, v);
      case Remove(k) =>
        DropTagSorted(before, k);
        DropTagMap(before, k);
    }
  }

  /** Two histories that end in the same tags end in the same list. */
  lemma HistoryCanonical(l: Tags, a: seq<TagOp>, l': Tags, b: seq<TagOp>)
    requires Sorted(l) && Sorted(l')
    ensures MapAfter(AsMap(l), a) == MapAfter(AsMap(l'), b) <==> ListAfter(l, a) == ListAfter(l', b)
  {
    HistorySorted(l, a);
    HistorySorted(l', b);
    if MapAfter(AsMap(l), a) == MapAfter(AsMap(l'), b) {
      Canonical(ListAfter(l, a), ListAfter(l', b));
    }
  }

  lemma OneMoreChange(l: Tags, ops: seq<TagOp>, i: nat)
    requires i < |ops|
    ensures ListAfter(l, ops[..i + 1]) == match ops[i]
      case Set(k, v) => SetTag(ListAfter(l, ops[..i]), k, v)
      case Remove(k) => DropTag(ListAfter(l, ops[..i]), k)
  {
    assert ops[..i + 1][..i] == ops[..i];
  }
}
