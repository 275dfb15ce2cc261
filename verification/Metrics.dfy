/** The metric object of `metric/metric.go`: tags are objects that are updated in place. */
module Metrics {
  import opened Seqs
  import opened Strings
  import opened TagList
  import opened SeriesKey

  class Tag {
    const key: string
    var value: string

    constructor (k: string, v: string)
      ensures key == k && value == v
    {
      key := k;
      value := v;
    }
  }

  /** What a list of tag objects holds. */
  ghost function Listing(ts: seq<Tag>): (l: Tags)
    reads ts
    ensures |l| == |ts|
    ensures forall i :: 0 <= i < |ts| ==> l[i] == Pair(ts[i].key, ts[i].value)
  {
    if ts == [] then [] else Listing(ts[..|ts| - 1]) + [Pair(ts[|ts| - 1].key, ts[|ts| - 1].value)]
  }

  class Metric {
    var name: string
    var tags: seq<Tag>
    var tm: int

    ghost function List(): Tags
      reads this, tags
    {
      Listing(tags)
    }

    ghost predicate Valid()
      reads this, tags
    {
      Sorted(List())
    }

    /** A metric with the tags of a map, which is read in any order. */
    constructor (n: string, m: map<string, string>, t: int)
      ensures Valid() && fresh(tags)
      ensures name == n && tm == t && AsMap(List()) == m
    {
      name := n;
      tags := [];
      tm := t;
      new;
      hide Listing, Sorted, AsMap;
      var l := SortTags(m);
      for i := 0 to |l|
        invariant fresh(tags) && name == n && tm == t
        invariant |tags| == i && List() == l[..i]
      {
        var tag := new Tag(l[i].key, l[i].value);
        tags := tags + [tag];
        assert List() == l[..i + 1];
      }
      assert l[..|l|] == l;
    }

    /** The first index whose key is not less than the given key. */
    method FindSlot(key: string) returns (i: nat)
      ensures i == Slot(List(), key)
    {
      hide Listing, Slot, Less;
      ghost var l := List();
      i := 0;
      while i < |tags| && Less(tags[i].key, key)
        invariant i <= |tags|
        invariant forall k :: 0 <= k < i ==> Less(l[k].key, key)
      {
        i := i + 1;
      }
      SlotIs(l, key, i);
    }

    /** Overwrite the value of one tag object, in place. */
    method Overwrite(i: nat, value: string)
      requires Valid() && i < |tags|
      modifies tags
      ensures List() == old(List())[i := Pair(tags[i].key, value)]
    {
      hide Listing, Sorted;
      Distinct(tags, i);
      ghost var l, ts := List(), tags;
      tags[i].value := value;
      assert List() == l[i := Pair(tags[i].key, value)];
    }

    method InsertTag(i: nat, key: string, value: string)
      requires i <= |tags|
      modifies this`tags
      ensures fresh((set t | t in tags) - old(set t | t in tags))
      ensures List() == InsertAt(old(List()), i, Pair(key, value))
    {
      hide Listing;
      ghost var l := List();
      var tag := new Tag(key, value);
      tags := InsertAt(tags, i, tag);
      assert List() == InsertAt(l, i, Pair(key, value));
    }

    /** Set a tag: replace its value, or insert it in order. */
    method AddTag(key: string, value: string)
      requires Valid()
      modifies this`tags, tags
      ensures Valid() && fresh((set t | t in tags) - old(set t | t in tags))
      ensures List() == SetTag(old(List()), key, value)
    {
      hide Listing, Sorted, Slot, InsertAt;
      SetTagSorted(List(), key, value);
      var i := FindSlot(key);
      if i < |tags| && tags[i].key == key {
        Overwrite(i, value);
      } else {
        InsertTag(i, key, value);
      }
    }

    /** Remove a tag if it is there. */
    method RemoveTag(key: string)
      requires Valid()
      modifies this`tags
      ensures Valid() && (forall t :: t in tags ==> t in old(tags))
      ensures List() == DropTag(old(List()), key)
    {
      hide Listing, Sorted, Slot;
      ghost var l := List();
      DropTagSorted(l, key);
      var i := 0;
      while i < |tags|
        invariant i <= |tags|
        invariant forall k :: 0 <= k < i ==> l[k].key != key
      {
        if tags[i].key == key {
          SlotUnique(l, key, i);
          tags := tags[..i] + tags[i + 1..];
          assert List() == l[..i] + l[i + 1..];
          return;
        }
        i := i + 1;
      }
    }

    /** The bytes that `HashID` writes to the hash, in order. */
    method HashInput() returns (out: string)
      ensures out == SeriesStream(name, List())
    {
      hide Listing, TagLines;
      ghost var l := List();
      NoTagLines(l);
      out := name + [NL];
      for i := 0 to |tags|
        invariant out == name + [NL] + TagLines(l[..i])
      {
        TagLinesAppend(l, i);
        var line := tags[i].key + [NL] + tags[i].value + [NL];
        assert out + line == name + [NL] + (TagLines(l[..i]) + line);
        out := out + line;
      }
      assert l[..|tags|] == l;
    }

    /** A deep copy: a new metric with new tag objects. */
    method Copy() returns (c: Metric)
      requires Valid()
      ensures c.Valid() && fresh(c) && fresh(c.tags)
      ensures c.name == name && c.tm == tm && c.List() == List()
    {
      hide Listing, Sorted;
      c := new Metric.Empty(name, tm);
      ghost var l := List();
      for i := 0 to |tags|
        invariant fresh(c.tags) && c.name == name && c.tm == tm
        invariant |c.tags| == i && c.List() == l[..i]
      {
        var tag := new Tag(tags[i].key, tags[i].value);
        c.tags := c.tags + [tag];
        assert c.List() == l[..i + 1];
      }
      assert l[..|tags|] == l;
    }

    constructor Empty(n: string, t: int)
      ensures name == n && tm == t && tags == []
    {
      name := n;
      tags := [];
      tm := t;
    }
  }

  /** Changing the tags of a copy, by any history of changes, never changes the original. */
  method ChangeCopy(m: Metric, ops: seq<TagOp>) returns (c: Metric)
    requires m.Valid()
    ensures m.Valid() && m.List() == old(m.List())
    ensures c.Valid() && fresh(c) && c.List() == ListAfter(old(m.List()), ops)
  {
    hide Listing, Sorted, SetTag, DropTag;
    c := m.Copy();
    for i := 0 to |ops|
      invariant fresh(c) && fresh(set t | t in c.tags) && c.Valid()
      invariant c.List() == ListAfter(old(m.List()), ops[..i])
    {
      OneMoreChange(old(m.List()), ops, i);
      match ops[i]
      case Set(k, v) => c.AddTag(k, v);
      case Remove(k) => c.RemoveTag(k);
    }
    assert ops[..|ops|] == ops;
  }

  lemma NoTagLines(l: Tags)
    ensures TagLines(l[..0]) == ""
  {
  }

  lemma {:induction false} SlotIs(l: Tags, key: string, i: nat)
    requires i <= |l| && (i < |l| ==> !Less(l[i].key, key))
    requires forall k :: 0 <= k < i ==> Less(l[k].key, key)
    ensures Slot(l, key) == i
  {
  }

  /** In a sorted list every tag object occurs once. */
  lemma Distinct(ts: seq<Tag>, i: nat)
    requires Sorted(Listing(ts)) && i < |ts|
    ensures forall j :: 0 <= j < |ts| && j != i ==> ts[j] != ts[i]
  {
    hide Listing, Less;
    forall j | 0 <= j < |ts| && j != i ensures ts[j] != ts[i] {
      var l := Listing(ts);
      LessIrreflexive(ts[i].key);
      assert if j < i then Less(l[j].key, l[i].key) else Less(l[i].key, l[j].key);
    }
  }
}
