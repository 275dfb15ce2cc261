/** Facts about sequences and integers that several components share. */
module Seqs {

  function Min(a: int, b: int): int {
    if b < a then b else a
  }

  function Max(a: int, b: int): int {
    if a < b then b else a
  }

  /** The elements of `s` from last to first. */
  function Reverse<T>(s: seq<T>): (r: seq<T>)
    ensures |r| == |s|
  {
    seq(|s|, i requires 0 <= i < |s| => s[|s| - 1 - i])
  }

  /** How many elements of `s` do not fit in `n` places. */
  function Excess<T>(n: nat, s: seq<T>): (k: nat)
    ensures k <= |s|
  {
    if |s| <= n then 0 else |s| - n
  }

  /** The newest (last) `n` elements of `s`, or all of `s` if it is shorter. */
  function Newest<T>(n: nat, s: seq<T>): seq<T> {
    s[Excess(n, s)..]
  }

  /** The elements that `Newest` leaves out. */
  function Oldest<T>(n: nat, s: seq<T>): seq<T> {
    s[..Excess(n, s)]
  }

  lemma SplitMultiset<T>(s: seq<T>, k: nat)
    requires k <= |s|
    ensures multiset(s) == multiset(s[..k]) + multiset(s[k..])
  {
    assert s == s[..k] + s[k..];
  }

  lemma NewestOldest<T>(n: nat, s: seq<T>)
    ensures multiset(s) == multiset(Oldest(n, s)) + multiset(Newest(n, s))
  {
    SplitMultiset(s, Excess(n, s));
  }

  lemma {:induction false} ReverseMultiset<T>(s: seq<T>)
    ensures multiset(Reverse(s)) == multiset(s)
  {
    if s != [] {
      ReverseMultiset(s[1..]);
      assert Reverse(s) == Reverse(s[1..]) + [s[0]];
      assert s == [s[0]] + s[1..];
    }
  }

  lemma ReverseReverse<T>(s: seq<T>)
    ensures Reverse(Reverse(s)) == s
  {
  }

  lemma ReverseSuffix<T>(s: seq<T>, r: nat)
    requires r <= |s|
    ensures Reverse(s)[|s| - r..] == Reverse(s[..r]) && Reverse(s)[..|s| - r] == Reverse(s[r..])
  {
  }

  /** Dropping from the front: first from `a`, and from `b` only once `a` is used up. */
  lemma DropFront<T>(a: seq<T>, b: seq<T>, c: seq<T>, i: nat, j: nat)
    requires i <= |a| && j <= |b| && (j == 0 || i == |a|)
    ensures (a + b + c)[i + j..] == a[i..] + b[j..] + c
  {
    if j == 0 {
      assert (a + b + c)[i..] == a[i..] + b + c;
      assert b[0..] == b;
    } else {
      assert a[i..] == [];
      assert (a + b + c)[|a| + j..] == b[j..] + c;
    }
  }

  lemma TakeFront<T>(a: seq<T>, b: seq<T>, c: seq<T>, i: nat, j: nat)
    requires i <= |a| && j <= |b| && (j == 0 || i == |a|)
    ensures (a + b + c)[..i + j] == a[..i] + b[..j]
  {
    if j == 0 {
      assert (a + b + c)[..i] == a[..i];
    } else {
      assert (a + b + c)[..|a| + j] == a + b[..j];
    }
  }

  /** `s` with `x` put in at index `p`. */
  function InsertAt<T>(s: seq<T>, p: nat, x: T): (r: seq<T>)
    requires p <= |s|
    ensures |r| == |s| + 1
    ensures forall i :: 0 <= i < |r| ==> r[i] == if i < p then s[i] else if i == p then x else s[i - 1]
  {
    s[..p] + [x] + s[p..]
  }

  lemma Associate<M>(a: seq<M>, b: seq<M>, c: seq<M>)
    ensures a + b + c == a + (b + c)
  {
  }

  /** The index of the first element with a property, or the number of elements. */
  function First<T>(s: seq<T>, p: T -> bool): (i: nat)
    ensures i <= |s| && (i < |s| ==> p(s[i]))
    ensures forall k :: 0 <= k < i ==> !p(s[k])
  {
    if s == [] || p(s[0]) then 0 else 1 + First(s[1..], p)
  }

  lemma ModSmall(x: nat, d: nat)
    requires x < d
    ensures x % d == x
  {
  }
}
