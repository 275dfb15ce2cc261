/** The filter tree of `internal/templating/node.go`, on values. */
module FilterTree {
  import opened Options
  import opened Seqs
  import Strings

  type Parts = seq<string>

  /** A node: its template, and its children under their part values. */
  datatype Tree<T> = Tree(template: Option<T>, kids: seq<Kid<T>>)
  datatype Kid<T> = Kid(part: string, sub: Tree<T>)

  const Any := "*"

  /** The order of children: by part, with the wildcard last. */
  predicate Before(a: string, b: string) {
    if a == Any && b != Any then false
    else if a != Any && b == Any then true
    else Strings.Less(a, b)
  }

  lemma BeforeStrict(a: string, b: string)
    requires Before(a, b)
    ensures !Before(b, a) && a != b
  {
    if a != Any || b != Any {
      if Strings.Less(a, b) {
        Strings.LessAsymmetric(a, b);
      }
    } else {
      Strings.LessIrreflexive(a);
    }
  }

  lemma BeforeTotal(a: string, b: string)
    ensures Before(a, b) || a == b || Before(b, a)
  {
    Strings.LessTotal(a, b);
  }

  lemma BeforeTransitive(a: string, b: string, c: string)
    requires Before(a, b) && Before(b, c)
    ensures Before(a, c)
  {
    if Strings.Less(a, b) && Strings.Less(b, c) {
      Strings.LessTransitive(a, b, c);
    }
  }

  /** Children distinct and in order. */
  ghost predicate Ascending<T>(kids: seq<Kid<T>>) {
    forall i, j :: 0 <= i < j < |kids| ==> Before(kids[i].part, kids[j].part)
  }

  /** Children distinct and in order, in the whole tree. */
  ghost predicate Ordered<T>(t: Tree<T>) {
    && Ascending(t.kids)
    && (forall i :: 0 <= i < |t.kids| ==> Ordered(t.kids[i].sub))
  }

  /** The index of the child with the given part, or the number of children. */
  function IndexOf<T>(kids: seq<Kid<T>>, part: string): (i: nat)
    ensures i <= |kids|
    ensures i < |kids| ==> kids[i].part == part
    ensures forall k :: 0 <= k < i ==> kids[k].part != part
  {
    First(kids, (k: Kid<T>) => k.part == part)
  }

  /** Where a new child goes to keep the children in order. */
  function Place<T>(kids: seq<Kid<T>>, part: string): (i: nat)
    ensures i <= |kids|
    ensures forall k :: 0 <= k < i ==> Before(kids[k].part, part)
    ensures i < |kids| ==> !Before(kids[i].part, part)
  {
    if kids == [] then 0
    else if Before(kids[0].part, part) then 1 + Place(kids[1..], part)
    else 0
  }

  function Leaf<T>(): Tree<T> {
    Tree(None, [])
  }

  /** Insert a template under a filter, creating the nodes on the way. */
  function Insert<T>(t: Tree<T>, filter: Parts, x: T): Tree<T>
    decreases |filter|
  {
    if filter == [] then
      t.(template := Some(x))
    else
      var i := IndexOf(t.kids, filter[0]);
      if i < |t.kids| then
        t.(kids := t.kids[i := Kid(filter[0], Insert(t.kids[i].sub, filter[1..], x))])
      else
        var p := Place(t.kids, filter[0]);
        t.(kids := InsertAt(t.kids, p, Kid(filter[0], Insert(Leaf(), filter[1..], x))))
  }

  /** `sort.Search` over the first `hi` children: the first whose part is not less than the line part. */
  function BinarySearch<T>(kids: seq<Kid<T>>, part: string, lo: nat, hi: nat): (i: nat)
    requires lo <= hi <= |kids|
    ensures lo <= i <= hi
    decreases hi - lo
  {
    if lo == hi then lo
    else
      var mid := (lo + hi) / 2;
      if Strings.Less(kids[mid].part, part) then BinarySearch(kids, part, mid + 1, hi)
      else BinarySearch(kids, part, lo, mid)
  }

  /** The number of children that are not the wildcard, which sorts last. */
  function Exact<T>(kids: seq<Kid<T>>): (n: nat)
    ensures n <= |kids|
  {
    if kids != [] && kids[|kids| - 1].part == Any then |kids| - 1 else |kids|
  }

  /** Find the template for a line, given by its parts. */
  function Search<T>(t: Tree<T>, line: Parts): Option<T>
    decreases |line|
  {
    if line == [] || t.kids == [] then
      t.template
    else
      var n := Exact(t.kids);
      var i := BinarySearch(t.kids, line[0], 0, n);
      var found := if i < n && t.kids[i].part == line[0] then Search(t.kids[i].sub, line[1..]) else None;
      if found.Some? then found
      else if n < |t.kids| then Search(t.kids[n].sub, line[1..])
      else t.template
  }

  // ---------- the tree as a map from filters to templates ----------

  function Sub<T>(t: Tree<T>, part: string): Option<Tree<T>> {
    var i := IndexOf(t.kids, part);
    if i < |t.kids| then Some(t.kids[i].sub) else None
  }

  /** The node at the end of a path, if the path exists. */
  function Node<T>(t: Tree<T>, path: Parts): Option<Tree<T>>
    decreases |path|
  {
    if path == [] then Some(t)
    else if Sub(t, path[0]).Some? then Node(Sub(t, path[0]).value, path[1..])
    else None
  }

  function Get<T>(m: map<Parts, T>, filter: Parts): Option<T> {
    if filter in m then Some(m[filter]) else None
  }

  /** A path on the way to some filter. */
  ghost predicate OnPath<T>(m: map<Parts, T>, path: Parts) {
    path == [] || exists f :: f in m && path <= f
  }

  /** The subtree `t` at `prefix` holds exactly the filters of `m` that start with `prefix`. */
  ghost predicate Holds<T>(t: Tree<T>, m: map<Parts, T>, prefix: Parts) {
    forall path: Parts ::
      && (Node(t, path).Some? <==> OnPath(m, prefix + path))
      && (Node(t, path).Some? ==> Node(t, path).value.template == Get(m, prefix + path))
  }

  lemma IndexOfReplaced<T>(kids: seq<Kid<T>>, i: nat, sub: Tree<T>, part: string)
    requires i < |kids|
    ensures IndexOf(kids[i := Kid(kids[i].part, sub)], part) == IndexOf(kids, part)
  {
    hide IndexOf;
    IndexIs(kids[i := Kid(kids[i].part, sub)], part, IndexOf(kids, part));
  }

  lemma IndexIs<T>(kids: seq<Kid<T>>, part: string, i: nat)
    requires i <= |kids| && (i < |kids| ==> kids[i].part == part)
    requires forall k :: 0 <= k < i ==> kids[k].part != part
    ensures IndexOf(kids, part) == i
  {
  }

  lemma IndexOfInserted<T>(kids: seq<Kid<T>>, p: nat, kid: Kid<T>, part: string)
    requires p <= |kids| && IndexOf(kids, kid.part) == |kids|
    ensures var kids' := InsertAt(kids, p, kid);
      IndexOf(kids', part) ==
        if part == kid.part then p
        else if IndexOf(kids, part) < p then IndexOf(kids, part)
        else IndexOf(kids, part) + 1
  {
    hide IndexOf;
    var i := IndexOf(kids, part);
    IndexIs(InsertAt(kids, p, kid), part, if part == kid.part then p else if i < p then i else i + 1);
  }

  /** An insertion changes the subtree under the filter's first part only. */
  lemma SubInsert<T>(t: Tree<T>, filter: Parts, x: T, part: string)
    requires filter != []
    ensures var sub := Sub(t, filter[0]);
      Sub(Insert(t, filter, x), part) ==
        if part != filter[0] then Sub(t, part)
        else Some(Insert(if sub.Some? then sub.value else Leaf(), filter[1..], x))
  {
    var i := IndexOf(t.kids, filter[0]);
    if i < |t.kids| {
      IndexOfReplaced(t.kids, i, Insert(t.kids[i].sub, filter[1..], x), part);
    } else {
      var p := Place(t.kids, filter[0]);
      IndexOfInserted(t.kids, p, Kid(filter[0], Insert(Leaf(), filter[1..], x)), part);
    }
  }

  /** After an insertion the paths are the old ones and the prefixes of the filter; only its end has a new template. */
  lemma {:induction false} NodeInsert<T>(t: Tree<T>, filter: Parts, x: T, path: Parts)
    ensures Node(Insert(t, filter, x), path).Some? <==> Node(t, path).Some? || path <= filter
    ensures Node(Insert(t, filter, x), path).Some? ==>
      Node(Insert(t, filter, x), path).value.template ==
        if path == filter then Some(x) else if Node(t, path).Some? then Node(t, path).value.template else None
    decreases |filter|
  {
    hide IndexOf, Place;
    if path != [] && filter != [] {
      SubInsert(t, filter, x, path[0]);
      if path[0] == filter[0] {
        var sub := Sub(t, filter[0]);
        NodeInsert(if sub.Some? then sub.value else Leaf(), filter[1..], x, path[1..]);
        assert path == [path[0]] + path[1..] && filter == [filter[0]] + filter[1..];
        LeafNode<T>(path[1..]);
      }
    }
  }

  lemma LeafNode<T>(path: Parts)
    ensures Node(Leaf<T>(), path) == if path == [] then Some(Leaf<T>()) else None
  {
  }

  lemma InsertHolds<T>(t: Tree<T>, m: map<Parts, T>, filter: Parts, x: T)
    requires Holds(t, m, [])
    ensures Holds(Insert(t, filter, x), m[filter := x], [])
  {
    var m' := m[filter := x];
    forall path: Parts
      ensures Node(Insert(t, filter, x), path).Some? <==> OnPath(m', [] + path)
      ensures Node(Insert(t, filter, x), path).Some? ==>
        Node(Insert(t, filter, x), path).value.template == Get(m', [] + path)
    {
      NodeInsert(t, filter, x, path);
      assert [] + path == path;
      assert OnPath(m', path) <==> OnPath(m, path) || path <= filter by {
        assert filter in m';
        assert forall f :: f in m ==> f in m';
      }
      assert Node(t, path).Some? <==> OnPath(m, [] + path);
      assert !OnPath(m, path) ==> path !in m;
    }
  }

  // ---------- order of the children ----------

  lemma {:induction false} PlaceOrders<T>(kids: seq<Kid<T>>, kid: Kid<T>)
    requires Ascending(kids)
    requires IndexOf(kids, kid.part) == |kids|
    ensures var p := Place(kids, kid.part);
      var kids' := InsertAt(kids, p, kid);
      Ascending(kids')
  {
    hide Before;
    var p := Place(kids, kid.part);
    forall k | p <= k < |kids| ensures Before(kid.part, kids[k].part) {
      BeforeTotal(kid.part, kids[p].part);
      if p < k {
        BeforeTransitive(kid.part, kids[p].part, kids[k].part);
      }
    }
  }

  lemma {:induction false} InsertOrdered<T>(t: Tree<T>, filter: Parts, x: T)
    requires Ordered(t)
    ensures Ordered(Insert(t, filter, x))
    decreases |filter|
  {
    hide Before, IndexOf, Place, Ascending;
    if filter == [] {
      assert Ordered(Insert(t, filter, x));
    } else {
      var i := IndexOf(t.kids, filter[0]);
      if i < |t.kids| {
        InsertOrdered(t.kids[i].sub, filter[1..], x);
        ReplaceOrdered(t, i, Insert(t.kids[i].sub, filter[1..], x));
      } else {
        LeafOrdered<T>();
        InsertOrdered(Leaf<T>(), filter[1..], x);
        AddOrdered(t, Kid(filter[0], Insert(Leaf(), filter[1..], x)));
      }
    }
  }

  lemma LeafOrdered<T>()
    ensures Ordered(Leaf<T>())
  {
  }

  lemma ReplaceOrdered<T>(t: Tree<T>, i: nat, sub: Tree<T>)
    requires Ordered(t) && i < |t.kids| && Ordered(sub)
    ensures Ordered(t.(kids := t.kids[i := Kid(t.kids[i].part, sub)]))
  {
    hide Before;
  }

  lemma AddOrdered<T>(t: Tree<T>, kid: Kid<T>)
    requires Ordered(t) && Ordered(kid.sub) && IndexOf(t.kids, kid.part) == |t.kids|
    ensures var p := Place(t.kids, kid.part);
      Ordered(t.(kids := InsertAt(t.kids, p, kid)))
  {
    hide Before, Ascending, IndexOf, Place;
    PlaceOrders(t.kids, kid);
    var p := Place(t.kids, kid.part);
    var kids' := InsertAt(t.kids, p, kid);
    forall k | 0 <= k < |kids'| ensures Ordered(kids'[k].sub) {
    }
  }

  // ---------- search ----------

  /** The wildcard child, if there is one, is the last child and the only one that binary search leaves out. */
  lemma ExactIsWildcard<T>(kids: seq<Kid<T>>)
    requires Ascending(kids)
    ensures Exact(kids) == IndexOf(kids, Any)
    ensures forall k :: 0 <= k < Exact(kids) ==> kids[k].part != Any
  {
    var n := Exact(kids);
    forall k | 0 <= k < n ensures kids[k].part != Any {
      if k < |kids| - 1 {
        assert Before(kids[k].part, kids[|kids| - 1].part);
        BeforeStrict(kids[k].part, kids[|kids| - 1].part);
      }
    }
  }

  lemma {:induction false} BinarySearchSplits<T>(kids: seq<Kid<T>>, part: string, n: nat, lo: nat, hi: nat)
    requires lo <= hi <= n <= |kids|
    requires forall i, j :: 0 <= i < j < n ==> Strings.Less(kids[i].part, kids[j].part)
    requires forall k :: 0 <= k < lo ==> Strings.Less(kids[k].part, part)
    requires forall k :: hi <= k < n ==> !Strings.Less(kids[k].part, part)
    ensures var i := BinarySearch(kids, part, lo, hi);
      && (forall k :: 0 <= k < i ==> Strings.Less(kids[k].part, part))
      && (forall k :: i <= k < n ==> !Strings.Less(kids[k].part, part))
    decreases hi - lo
  {
    hide Strings.Less;
    if lo < hi {
      var mid := (lo + hi) / 2;
      if Strings.Less(kids[mid].part, part) {
        forall k | 0 <= k < mid ensures Strings.Less(kids[k].part, part) {
          Strings.LessTransitive(kids[k].part, kids[mid].part, part);
        }
        BinarySearchSplits(kids, part, n, mid + 1, hi);
      } else {
        forall k | mid < k < n ensures !Strings.Less(kids[k].part, part) {
          if Strings.Less(kids[k].part, part) {
            Strings.LessTransitive(kids[mid].part, kids[k].part, part);
          }
        }
        BinarySearchSplits(kids, part, n, lo, mid);
      }
    }
  }

  /** Binary search finds exactly the child that a scan of the children would find. */
  lemma BinarySearchFinds<T>(kids: seq<Kid<T>>, part: string)
    requires Ascending(kids)
    ensures var n := Exact(kids);
      var i := BinarySearch(kids, part, 0, n);
      && (i < n && kids[i].part == part <==> part != Any && IndexOf(kids, part) < |kids|)
      && (i < n && kids[i].part == part ==> i == IndexOf(kids, part))
  {
    hide IndexOf, BinarySearch;
    var n := Exact(kids);
    ExactIsWildcard(kids);
    ExactLess(kids);
    hide Before, Exact;
    BinarySearchSplits(kids, part, n, 0, n);
    var i, k := BinarySearch(kids, part, 0, n), IndexOf(kids, part);
    Strings.LessIrreflexive(part);
    assert part != Any && k < |kids| ==> i <= k < n;
  }

  lemma ExactLess<T>(kids: seq<Kid<T>>)
    requires Ascending(kids)
    ensures forall i, j :: 0 <= i < j < Exact(kids) ==> Strings.Less(kids[i].part, kids[j].part)
  {
    ExactIsWildcard(kids);
    forall i, j | 0 <= i < j < Exact(kids) ensures Strings.Less(kids[i].part, kids[j].part) {
      assert Before(kids[i].part, kids[j].part);
    }
  }

  /** Some filter goes on past this path. */
  ghost predicate Extended<T>(m: map<Parts, T>, path: Parts) {
    exists f :: f in m && path < f
  }

  /**
    What a search means on the map of filters: follow the line part by part, preferring the
    exact part; try the wildcard when the exact part finds nothing; without a wildcard fall
    back to the template at the path reached.
  */
  ghost function Lookup<T>(m: map<Parts, T>, path: Parts, line: Parts): Option<T>
    decreases |line|
  {
    if line == [] || !Extended(m, path) then
      Get(m, path)
    else
      var found :=
        if line[0] != Any && OnPath(m, path + [line[0]]) then Lookup(m, path + [line[0]], line[1..]) else None;
      if found.Some? then found
      else if OnPath(m, path + [Any]) then Lookup(m, path + [Any], line[1..])
      else Get(m, path)
  }

  lemma SubHolds<T>(t: Tree<T>, m: map<Parts, T>, prefix: Parts, part: string)
    requires Holds(t, m, prefix)
    ensures Sub(t, part).Some? <==> OnPath(m, prefix + [part])
    ensures Sub(t, part).Some? ==> Holds(Sub(t, part).value, m, prefix + [part])
  {
    assert Node(t, [part]).Some? <==> Sub(t, part).Some? by {
      assert [part][1..] == [];
    }
    if Sub(t, part).Some? {
      var sub := Sub(t, part).value;
      forall path: Parts
        ensures Node(sub, path) == Node(t, [part] + path) && prefix + [part] + path == prefix + ([part] + path)
      {
        assert ([part] + path)[1..] == path;
      }
      forall path: Parts
        ensures Node(sub, path).Some? <==> OnPath(m, prefix + [part] + path)
        ensures Node(sub, path).Some? ==> Node(sub, path).value.template == Get(m, prefix + [part] + path)
      {
        assert Node(sub, path) == Node(t, [part] + path);
      }
    }
  }

  lemma KidsExtend<T>(t: Tree<T>, m: map<Parts, T>, prefix: Parts)
    requires Holds(t, m, prefix)
    ensures t.kids == [] <==> !Extended(m, prefix)
  {
    if t.kids != [] {
      var part := t.kids[0].part;
      assert Sub(t, part).Some?;
      SubHolds(t, m, prefix, part);
      var f :| f in m && prefix + [part] <= f;
      assert prefix < f;
    }
    if Extended(m, prefix) {
      var f :| f in m && prefix < f;
      var part := f[|prefix|];
      assert prefix + [part] <= f;
      SubHolds(t, m, prefix, part);
    }
  }

  /** The search of the ordered tree by binary search is the lookup in the map of filters. */
  lemma {:induction false} SearchIsLookup<T>(t: Tree<T>, m: map<Parts, T>, prefix: Parts, line: Parts)
    requires Ordered(t) && Holds(t, m, prefix)
    ensures Search(t, line) == Lookup(m, prefix, line)
    decreases |line|
  {
    KidsExtend(t, m, prefix);
    assert Node(t, []).Some? && prefix + [] == prefix;
    if line != [] && t.kids != [] {
      var n := Exact(t.kids);
      BinarySearchFinds(t.kids, line[0]);
      ExactIsWildcard(t.kids);
      SubHolds(t, m, prefix, line[0]);
      SubHolds(t, m, prefix, Any);
      if line[0] != Any && Sub(t, line[0]).Some? {
        SearchIsLookup(Sub(t, line[0]).value, m, prefix + [line[0]], line[1..]);
      }
      if Sub(t, Any).Some? {
        SearchIsLookup(Sub(t, Any).value, m, prefix + [Any], line[1..]);
      }
    }
  }

  // ---------- every sequence of insertions ----------

  /** The tree that results from inserting filters in order. */
  function Build<T>(ins: seq<(Parts, T)>): Tree<T> {
    if ins == [] then Leaf()
    else Insert(Build(ins[..|ins| - 1]), ins[|ins| - 1].0, ins[|ins| - 1].1)
  }

  /** The latest template of each filter. */
  function Latest<T>(ins: seq<(Parts, T)>): map<Parts, T> {
    if ins == [] then map[] else Latest(ins[..|ins| - 1])[ins[|ins| - 1].0 := ins[|ins| - 1].1]
  }

  lemma {:induction false} BuildHolds<T>(ins: seq<(Parts, T)>)
    ensures Ordered(Build(ins)) && Holds(Build(ins), Latest(ins), [])
  {
    if ins == [] {
      forall path: Parts ensures Node(Build(ins), path).Some? <==> path == [] {
        LeafNode<T>(path);
      }
      LeafOrdered<T>();
    } else {
      var last := ins[|ins| - 1];
      BuildHolds(ins[..|ins| - 1]);
      InsertOrdered(Build(ins[..|ins| - 1]), last.0, last.1);
      InsertHolds(Build(ins[..|ins| - 1]), Latest(ins[..|ins| - 1]), last.0, last.1);
    }
  }

  /** However the tree was built, a search is a lookup in the map from filters to their latest templates. */
  lemma TreeIsMap<T>(ins: seq<(Parts, T)>, line: Parts)
    ensures Search(Build(ins), line) == Lookup(Latest(ins), [], line)
  {
    BuildHolds(ins);
    SearchIsLookup(Build(ins), Latest(ins), [], line);
  }

  ghost predicate DistinctFilters<T>(ins: seq<(Parts, T)>) {
    forall i, j :: 0 <= i < j < |ins| ==> ins[i].0 != ins[j].0
  }

  lemma {:induction false} LatestOfDistinct<T>(ins: seq<(Parts, T)>, f: Parts, x: T)
    requires DistinctFilters(ins)
    ensures f in Latest(ins) && Latest(ins)[f] == x <==> (f, x) in ins
  {
    if ins != [] {
      var init, last := ins[..|ins| - 1], ins[|ins| - 1];
      LatestOfDistinct(init, f, x);
      assert ins == init + [last];
      assert (f, x) in ins <==> (f, x) in init || (f, x) == last;
      assert forall i :: 0 <= i < |init| ==> init[i] == ins[i] && init[i].0 != last.0;
    }
  }

  /** Inserting distinct filters in another order finds the same templates. */
  lemma OrderDoesNotMatter<T>(ins: seq<(Parts, T)>, ins': seq<(Parts, T)>, line: Parts)
    requires DistinctFilters(ins) && DistinctFilters(ins') && multiset(ins) == multiset(ins')
    ensures Search(Build(ins), line) == Search(Build(ins'), line)
  {
    var m, m' := Latest(ins), Latest(ins');
    forall f | f in m ensures f in m' && m'[f] == m[f] {
      SameEntry(ins, ins', f);
    }
    forall f | f in m' ensures f in m {
      SameEntry(ins', ins, f);
    }
    assert m == m';
    TreeIsMap(ins, line);
    TreeIsMap(ins', line);
  }

  lemma SameEntry<T>(ins: seq<(Parts, T)>, ins': seq<(Parts, T)>, f: Parts)
    requires DistinctFilters(ins) && DistinctFilters(ins') && multiset(ins) == multiset(ins') && f in Latest(ins)
    ensures f in Latest(ins') && Latest(ins')[f] == Latest(ins)[f]
  {
    var x := Latest(ins)[f];
    LatestOfDistinct(ins, f, x);
    LatestOfDistinct(ins', f, x);
    assert (f, x) in multiset(ins);
  }

  /** A filter matches a line if each of its parts is the line's part or the wildcard. */
  predicate Matches(filter: Parts, line: Parts) {
    |filter| <= |line| && forall i :: 0 <= i < |filter| ==> filter[i] == line[i] || filter[i] == Any
  }

  lemma {:induction false} LookupSound<T>(m: map<Parts, T>, path: Parts, done: Parts, rest: Parts) returns (f: Parts)
    requires Lookup(m, path, rest).Some? && |path| == |done| && Matches(path, done)
    ensures f in m && Lookup(m, path, rest) == Some(m[f]) && path <= f && Matches(f, done + rest)
    decreases |rest|
  {
    f := path;
    if rest != [] && Extended(m, path) {
      var exact, any := path + [rest[0]], path + [Any];
      var done' := done + [rest[0]];
      assert done' + rest[1..] == done + rest;
      if rest[0] != Any && OnPath(m, exact) && Lookup(m, exact, rest[1..]).Some? {
        f := LookupSound(m, exact, done', rest[1..]);
      } else if OnPath(m, any) {
        f := LookupSound(m, any, done', rest[1..]);
      }
    }
  }

  /** Any template found was inserted under a filter that matches the line. */
  lemma SearchSound<T>(ins: seq<(Parts, T)>, line: Parts) returns (f: Parts)
    requires Search(Build(ins), line).Some?
    ensures f in Latest(ins) && Search(Build(ins), line) == Some(Latest(ins)[f]) && Matches(f, line)
  {
    TreeIsMap(ins, line);
    f := LookupSound(Latest(ins), [], [], line);
    assert [] + line == line;
  }

  lemma {:induction false} LookupExact<T>(m: map<Parts, T>, path: Parts, rest: Parts)
    requires path + rest in m && Any !in rest
    ensures Lookup(m, path, rest) == Some(m[path + rest])
    decreases |rest|
  {
    if rest == [] {
      assert path + rest == path;
    } else {
      assert path < path + rest;
      assert path + [rest[0]] + rest[1..] == path + rest;
      assert path + [rest[0]] <= path + rest;
      assert rest[0] in rest && forall p :: p in rest[1..] ==> p in rest;
      LookupExact(m, path + [rest[0]], rest[1..]);
    }
  }

  /** A filter without wildcards that equals the whole line always wins. */
  lemma ExactFilterWins<T>(ins: seq<(Parts, T)>, line: Parts)
    requires line in Latest(ins) && Any !in line
    ensures Search(Build(ins), line) == Some(Latest(ins)[line])
  {
    TreeIsMap(ins, line);
    assert [] + line == line;
    LookupExact(Latest(ins), [], line);
  }

  lemma NoWildcard(f: Parts, path: Parts)
    requires Any !in f
    ensures !(path + [Any] <= f)
  {
    assert (path + [Any])[|path|] == Any;
  }

  /** With no wildcard in any filter, the search finds the longest filter that the line starts with. */
  lemma {:induction false} LongestPrefix<T>(m: map<Parts, T>, path: Parts, rest: Parts) returns (k: nat)
    requires forall f :: f in m ==> Any !in f
    ensures k <= |rest|
    ensures forall j :: k < j <= |rest| ==> path + rest[..j] !in m
    ensures Lookup(m, path, rest).Some? ==>
      path + rest[..k] in m && Lookup(m, path, rest) == Some(m[path + rest[..k]])
    ensures Lookup(m, path, rest).None? ==> path !in m && forall j :: 0 <= j <= |rest| ==> path + rest[..j] !in m
    decreases |rest|
  {
    k := 0;
    assert path + rest[..0] == path;
    if rest != [] {
      var next := path + [rest[0]];
      forall j | 0 < j <= |rest| ensures path + rest[..j] == next + rest[1..][..j - 1] {
        assert rest[..j] == [rest[0]] + rest[1..][..j - 1];
      }
      forall j | 0 < j <= |rest| && path + rest[..j] in m
        ensures Extended(m, path) && OnPath(m, next) && rest[0] != Any
      {
        assert path < path + rest[..j] && next <= path + rest[..j];
        assert (path + rest[..j])[|path|] == rest[0];
      }
      forall f | f in m ensures !(path + [Any] <= f) {
        NoWildcard(f, path);
      }
      if Extended(m, path) && rest[0] != Any && OnPath(m, next) {
        var k' := LongestPrefix(m, next, rest[1..]);
        k := if Lookup(m, next, rest[1..]).Some? then k' + 1 else 0;
      }
    }
  }

  /** The filter matches the line, and ends with it or is not extended by a wildcard in other filters. */
  ghost predicate Stands<T>(m: map<Parts, T>, f: Parts, line: Parts) {
    f in m && Matches(f, line) && (|f| == |line| || !OnPath(m, f + [Any]))
  }

  /** A lookup that can still reach a filter that stands finds a template. */
  lemma {:induction false} StandingIsFound<T>(m: map<Parts, T>, path: Parts, line: Parts, f: Parts)
    requires Stands(m, f, line) && path <= f
    ensures Lookup(m, path, line[|path|..]).Some?
    decreases |f| - |path|
  {
    if path != f {
      var part, rest := f[|path|], line[|path|..];
      var next := path + [part];
      assert next <= f && path < f;
      assert rest[1..] == line[|next|..];
      assert part == rest[0] || part == Any;
      StandingIsFound(m, next, line, f);
    } else {
      assert path == f;
    }
  }

  lemma {:induction false} LookupEnds<T>(m: map<Parts, T>, path: Parts, line: Parts) returns (f: Parts)
    requires Matches(path, line) && Lookup(m, path, line[|path|..]).Some?
    ensures Stands(m, f, line)
    decreases |line| - |path|
  {
    f := path;
    var rest := line[|path|..];
    if rest != [] {
      if !Extended(m, path) {
        assert OnPath(m, path + [Any]) ==> Extended(m, path) by {
          NotExtended(m, path);
        }
      } else {
        var exact, any := path + [rest[0]], path + [Any];
        assert rest[1..] == line[|exact|..] == line[|any|..];
        if rest[0] != Any && OnPath(m, exact) && Lookup(m, exact, rest[1..]).Some? {
          f := LookupEnds(m, exact, line);
        } else if OnPath(m, any) {
          f := LookupEnds(m, any, line);
        }
      }
    }
  }

  lemma NotExtended<T>(m: map<Parts, T>, path: Parts)
    ensures OnPath(m, path + [Any]) ==> Extended(m, path)
  {
    forall f | f in m && path + [Any] <= f ensures path < f {
    }
  }

  /**
    A template is found exactly when some filter matches the line that ends with the line or
    is not extended by a wildcard in other filters.
  */
  lemma FoundThroughAMatch<T>(ins: seq<(Parts, T)>, line: Parts)
    ensures Search(Build(ins), line).Some? <==> exists f :: Stands(Latest(ins), f, line)
  {
    hide Stands, Build;
    var m := Latest(ins);
    TreeIsMap(ins, line);
    assert line[0..] == line;
    if Search(Build(ins), line).Some? {
      var f := LookupEnds(m, [], line);
    }
    forall f | Stands(m, f, line) ensures Lookup(m, [], line).Some? {
      StandingIsFound(m, [], line, f);
    }
  }

  /** Wherever a filter is followed by a wildcard in others, the filter with that wildcard is a filter too. */
  ghost predicate Closed<T>(m: map<Parts, T>) {
    forall f :: f in m && OnPath(m, f + [Any]) ==> f + [Any] in m
  }

  lemma {:induction false} ClosedStands<T>(m: map<Parts, T>, f: Parts, line: Parts) returns (g: Parts)
    requires Closed(m) && f in m && Matches(f, line)
    ensures Stands(m, g, line)
    decreases |line| - |f|
  {
    g := f;
    if |f| < |line| && OnPath(m, f + [Any]) {
      g := ClosedStands(m, f + [Any], line);
    }
  }

  /** For such filters no match is missed: a template is found exactly when some filter matches the line. */
  lemma ClosedFiltersMissNothing<T>(ins: seq<(Parts, T)>, line: Parts)
    requires Closed(Latest(ins))
    ensures Search(Build(ins), line).Some? <==> exists f :: f in Latest(ins) && Matches(f, line)
  {
    FoundThroughAMatch(ins, line);
    if f :| f in Latest(ins) && Matches(f, line) {
      var g := ClosedStands(Latest(ins), f, line);
    }
  }

  lemma MissedTree()
    ensures var ins: seq<(Parts, int)> := [(["a"], 1), (["a", "*", "c"], 2)];
      Build(ins) == Tree(None, [Kid("a", Tree(Some(1), [Kid("*", Tree(None, [Kid("c", Tree(Some(2), []))]))]))])
  {
    var ins: seq<(Parts, int)> := [(["a"], 1), (["a", "*", "c"], 2)];
    var one: seq<(Parts, int)> := [(["a"], 1)];
    assert ins[..1] == one && one[..0] == [];
    var t1 := Build(one);
    assert ["a"][1..] == [];
    assert t1 == Tree(None, [Kid("a", Tree(Some(1), []))]);
    MissedBranch();
    assert ["a", "*", "c"][1..] == ["*", "c"];
  }

  lemma MissedBranch()
    ensures Insert(Tree(Some(1), []), ["*", "c"], 2) ==
      Tree(Some(1), [Kid("*", Tree(None, [Kid("c", Tree(Some(2), []))]))])
  {
    assert ["*", "c"][1..] == ["c"] && ["c"][1..] == [];
    var inner := Tree(None, [Kid("c", Tree(Some(2), []))]);
    assert Insert(Leaf<int>(), ["c"], 2) == inner;
  }

  /**
    Other filters can miss a match: filter "a" matches the line a.b.d, but the search leaves
    its node for the wildcard of "a.*.c", finds nothing there, and does not come back.
  */
  lemma MissedMatch()
    ensures var ins: seq<(Parts, int)> := [(["a"], 1), (["a", "*", "c"], 2)];
      Matches(["a"], ["a", "b", "d"]) && Search(Build(ins), ["a", "b", "d"]) == None
  {
    hide Build, Insert;
    MissedTree();
    var inner := Tree(None, [Kid("c", Tree(Some(2), []))]);
    var mid := Tree(Some(1), [Kid("*", inner)]);
    assert ["a", "b", "d"][1..] == ["b", "d"] && ["b", "d"][1..] == ["d"];
    assert Search(inner, ["d"]) == None;
    assert Search(mid, ["b", "d"]) == None;
  }
}
