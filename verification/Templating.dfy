/** The nodes of `internal/templating/node.go`, updated in place. */
module Templating {
  import opened Options
  import opened Seqs
  import opened FilterTree
  import Strings

  class Node<T> {
    var value: string
    var children: seq<Node<T>>
    var template: Option<T>
    ghost var Repr: set<Node<T>>
    ghost var tree: Tree<T>      // the tree from this node down

    ghost predicate Valid()
      reads this, Repr
      decreases Repr, 1
    {
      && this in Repr
      && tree.template == template
      && Family(Repr, children, tree.kids)
    }

    /** The nodes `cs` are the roots of separate trees `kids` inside `nodes`, none of which holds this node. */
    ghost predicate Family(nodes: set<Node<T>>, cs: seq<Node<T>>, kids: seq<Kid<T>>)
      requires this in nodes
      reads nodes - {this}
      decreases nodes, 0
    {
      && |kids| == |cs|
      && (forall i :: 0 <= i < |cs| ==>
        && cs[i] in nodes - {this}
        && cs[i].Repr <= nodes - {this}
        && cs[i].Valid()
        && kids[i] == Kid(cs[i].value, cs[i].tree))
      && (forall i, j :: 0 <= i < j < |cs| ==> cs[i].Repr !! cs[j].Repr)
    }

    lemma FamilyAdd(nodes: set<Node<T>>, cs: seq<Node<T>>, kids: seq<Kid<T>>, p: nat, node: Node<T>)
      requires this in nodes && Family(nodes, cs, kids) && p <= |cs|
      requires node !in nodes && node.Repr == {node} && node.Valid()
      ensures Family(nodes + {node}, InsertAt(cs, p, node), InsertAt(kids, p, Kid(node.value, node.tree)))
    {
      var cs' := InsertAt(cs, p, node);
      forall i | 0 <= i < |cs'|
        ensures && cs'[i] in nodes + {node} - {this}
                && cs'[i].Repr <= nodes + {node} - {this}
                && cs'[i].Valid()
      {
        assert cs'[i] == if i < p then cs[i] else if i == p then node else cs[i - 1];
      }
    }

    constructor (part: string)
      ensures Valid() && Repr == {this}
      ensures value == part && tree == Leaf()
    {
      value := part;
      children := [];
      template := None;
      Repr := {this};
      tree := Leaf();
    }

    /** The first child with the given part, or the number of children. */
    method FindChild(part: string) returns (i: nat)
      requires Valid()
      ensures i == IndexOf(tree.kids, part)
    {
      i := 0;
      while i < |children|
        invariant i <= |children|
        invariant forall k :: 0 <= k < i ==> tree.kids[k].part != part
      {
        if children[i].value == part {
          IndexIs(tree.kids, part, i);
          return;
        }
        i := i + 1;
      }
      IndexIs(tree.kids, part, i);
    }

    /** Insert a template under the filter made of the given parts. */
    method RecursiveInsert(values: Parts, x: T)
      requires Valid()
      modifies Repr
      ensures Valid() && fresh(Repr - old(Repr)) && old(Repr) <= Repr
      ensures value == old(value)
      ensures tree == Insert(old(tree), values, x)
      decreases |values|
    {
      if |values| == 0 {
        template := Some(x);
        tree := tree.(template := Some(x));
        return;
      }
      var i := FindChild(values[0]);
      if i < |children| {
        InsertBelow(i, values, x);
      } else {
        ghost var t := tree;
        var p := Attach(values[0]);
        InsertAttached(t, p, values, x);
        InsertBelow(p, values, x);
      }
    }

    /** Add a node for a new part and put the children back in order. */
    method Attach(part: string) returns (p: nat)
      requires Valid() && IndexOf(tree.kids, part) == |children|
      modifies this
      ensures Valid() && fresh(Repr - old(Repr)) && old(Repr) <= Repr
      ensures value == old(value)
      ensures p == Place(old(tree).kids, part) < |children|
      ensures tree == old(tree).(kids := InsertAt(old(tree).kids, p, Kid(part, Leaf())))
    {
      var node := new Node<T>(part);
      p := FindPlace(part);
      FamilyAdd(Repr, children, tree.kids, p, node);
      children := InsertAt(children, p, node);
      Repr := Repr + {node};
      tree := tree.(kids := InsertAt(tree.kids, p, Kid(part, Leaf())));
    }

    /** Where sorting puts a new child: the others are in order already. */
    method FindPlace(part: string) returns (p: nat)
      requires Valid()
      ensures p == Place(tree.kids, part)
    {
      p := 0;
      while p < |children| && Before(children[p].value, part)
        invariant p <= |children|
        invariant forall k :: 0 <= k < p ==> Before(tree.kids[k].part, part)
      {
        p := p + 1;
      }
      PlaceIs(tree.kids, part, p);
    }

    method InsertBelow(i: nat, values: Parts, x: T)
      requires Valid() && values != [] && i < |children| && i == IndexOf(tree.kids, values[0])
      modifies Repr
      ensures Valid() && fresh(Repr - old(Repr)) && old(Repr) <= Repr
      ensures value == old(value)
      ensures tree == Insert(old(tree), values, x)
      decreases |values|, 0
    {
      hide Insert, IndexOf;
      var child := children[i];
      ghost var nodes, cs, kids := Repr, children, tree.kids;
      forall j | 0 <= j < |cs| && j != i ensures cs[j] in cs[j].Repr && cs[j].Repr !! child.Repr {
        assert cs[j].Valid();
        assert if j < i then cs[j].Repr !! cs[i].Repr else cs[i].Repr !! cs[j].Repr;
      }
      child.RecursiveInsert(values[1..], x);
      forall j | 0 <= j < |cs| && j != i ensures cs[j].Valid() && kids[j] == Kid(cs[j].value, cs[j].tree) {
      }
      assert Family(nodes + child.Repr, cs, kids[i := Kid(values[0], child.tree)]);
      Repr := Repr + child.Repr;
      InsertUnder(tree, i, values, x);
      tree := tree.(kids := tree.kids[i := Kid(values[0], child.tree)]);
    }

    /** `sort.Search` over the first `n` children. */
    method SearchChildren(part: string, n: nat) returns (i: nat)
      requires Valid() && n <= |tree.kids|
      ensures i == BinarySearch(tree.kids, part, 0, n)
    {
      var j := n;
      i := 0;
      while i < j
        invariant i <= j <= n
        invariant BinarySearch(tree.kids, part, i, j) == BinarySearch(tree.kids, part, 0, n)
      {
        var h := (i + j) / 2;
        if Strings.Less(children[h].value, part) {
          i := h + 1;
        } else {
          j := h;
        }
      }
    }

    /** Find the template for a line, given by its parts. */
    method RecursiveSearch(line: Parts) returns (r: Option<T>)
      requires Valid()
      ensures r == FilterTree.Search(tree, line)
      decreases |line|
    {
      hide BinarySearch;
      if |line| == 0 || |children| == 0 {
        return template;
      }
      var length := |children|;
      var hasWildcard := children[length - 1].value == Any;
      if hasWildcard {
        length := length - 1;
      }
      var i := SearchChildren(line[0], length);
      if i < length && children[i].value == line[0] {
        r := children[i].RecursiveSearch(line[1..]);
        if r.Some? {
          return;
        }
      }
      if hasWildcard {
        r := children[length].RecursiveSearch(line[1..]);
        return;
      }
      return template;
    }

    /** Insertion at the root: the tree goes on standing for the filters inserted so far. */
    method InsertFilter(filter: Parts, x: T, ghost m: map<Parts, T>)
      requires Valid() && Ordered(tree) && Holds(tree, m, [])
      modifies Repr
      ensures Valid() && fresh(Repr - old(Repr))
      ensures Ordered(tree) && Holds(tree, m[filter := x], [])
    {
      InsertOrdered(tree, filter, x);
      InsertHolds(tree, m, filter, x);
      hide Ordered, Holds, Insert;
      RecursiveInsert(filter, x);
    }

    /** Search from the root: a lookup among the filters inserted so far. */
    method SearchLine(line: Parts, ghost m: map<Parts, T>) returns (r: Option<T>)
      requires Valid() && Ordered(tree) && Holds(tree, m, [])
      ensures r == Lookup(m, [], line)
    {
      SearchIsLookup(tree, m, [], line);
      r := RecursiveSearch(line);
    }
  }

  lemma {:induction false} PlaceIs<T>(kids: seq<Kid<T>>, part: string, i: nat)
    requires i <= |kids| && (i < |kids| ==> !Before(kids[i].part, part))
    requires forall k :: 0 <= k < i ==> Before(kids[k].part, part)
    ensures Place(kids, part) == i
  {
  }

  lemma InsertUnder<T>(t: Tree<T>, i: nat, values: Parts, x: T)
    requires values != [] && i == IndexOf(t.kids, values[0]) < |t.kids|
    ensures Insert(t, values, x) == t.(kids := t.kids[i := Kid(values[0], Insert(t.kids[i].sub, values[1..], x))])
  {
  }

  /** Adding the node first and inserting below it then is inserting a new part. */
  lemma InsertAttached<T>(t: Tree<T>, p: nat, values: Parts, x: T)
    requires values != [] && IndexOf(t.kids, values[0]) == |t.kids| && p == Place(t.kids, values[0])
    ensures var t' := t.(kids := InsertAt(t.kids, p, Kid(values[0], Leaf())));
      IndexOf(t'.kids, values[0]) == p && Insert(t', values, x) == Insert(t, values, x)
  {
    hide IndexOf, Place;
    var kids := InsertAt(t.kids, p, Kid(values[0], Leaf()));
    IndexOfInserted(t.kids, p, Kid(values[0], Leaf()), values[0]);
    InsertUnder(t.(kids := kids), p, values, x);
    var kid := Kid(values[0], Insert(Leaf(), values[1..], x));
    assert Insert(t, values, x) == t.(kids := InsertAt(t.kids, p, kid));
    assert kids[p := kid] == InsertAt(t.kids, p, kid);
  }
}
