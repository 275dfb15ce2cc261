/**
  The behaviour of `internal/models/buffer.go` on plain values: a bounded queue of
  metrics, at most one lent batch, and the metrics that were added, accepted and
  rejected so far, in the order of the calls. `Reject` is what the buffer promises for
  a batch that comes back, `TakeBack` what it does. Class `RingBuffer.Buffer` refines
  the queue; module `Delivery` puts one per output under the delivery tracker.
*/
module BufferSpec {
  import opened Seqs

  /**
    `stored`  what the buffer holds, oldest first;
    `lent`    the outstanding batch, newest first, or `[]`;
    `newer`   how many metrics were added since that batch was taken;
    `lost`    metrics overwritten without a Reject() call.
  */
  datatype Ledger<M> = Ledger(
    cap: nat,
    stored: seq<M>,
    lent: seq<M>,
    newer: nat,
    added: seq<M>,
    accepted: seq<M>,
    rejected: seq<M>,
    lost: seq<M>)

  function Empty<M>(cap: nat): Ledger<M> {
    Ledger(cap, [], [], 0, [], [], [], [])
  }

  /** How many of the stored metrics are newer than the lent batch. */
  function NewerStored(l: Ledger): nat {
    if l.newer <= l.cap then l.newer else l.cap
  }

  predicate WellFormed(l: Ledger) {
    && 1 <= l.cap
    && NewerStored(l) <= |l.stored| <= l.cap
    && (l.lent == [] ==> l.newer == 0)
    && (l.lent != [] ==> |l.stored| - NewerStored(l) + |l.lent| <= l.cap)
  }

  /** Every metric that was added is in exactly one place. */
  ghost predicate Conserved(l: Ledger) {
    multiset(l.added) ==
      multiset(l.accepted) + multiset(l.rejected) + multiset(l.stored) + multiset(l.lent) + multiset(l.lost)
  }

  function Older<M>(l: Ledger<M>): seq<M>
    requires WellFormed(l)
  {
    l.stored[..|l.stored| - NewerStored(l)]
  }

  function Newer<M>(l: Ledger<M>): seq<M>
    requires WellFormed(l)
  {
    l.stored[|l.stored| - NewerStored(l)..]
  }

  /**
    Metrics kept arriving while the batch was out until the whole buffer and then
    the whole batch window were overwritten, and the ring has since moved on.
  */
  predicate Overrun(l: Ledger)
    requires 1 <= l.cap
  {
    && l.lent != []
    && l.cap + |l.lent| < l.newer
    && (l.newer - l.cap - |l.lent|) % l.cap != 0
  }

  /** Append, dropping the oldest metric when full. */
  function Add<M>(l: Ledger<M>, m: M): Ledger<M>
    requires WellFormed(l)
  {
    l.(stored := Newest(l.cap, l.stored + [m]),
       newer := if l.lent == [] then 0 else l.newer + 1,
       added := l.added + [m],
       rejected := l.rejected + Oldest(l.cap, l.stored + [m]))
  }

  function AddAll<M>(l: Ledger<M>, ms: seq<M>): (r: Ledger<M>)
    requires WellFormed(l)
    ensures WellFormed(r) && r.cap == l.cap && r.lent == l.lent && r.lost == l.lost
  {
    if ms == [] then l else Add(AddAll(l, ms[..|ms| - 1]), ms[|ms| - 1])
  }

  lemma AddAllStep<M>(l: Ledger<M>, ms: seq<M>, i: nat)
    requires WellFormed(l) && i < |ms|
    ensures AddAll(l, ms[..i + 1]) == Add(AddAll(l, ms[..i]), ms[i])
  {
    assert ms[..i + 1][..i] == ms[..i];
  }

  /** Lend out the newest `n` metrics, newest first. */
  function Batch<M>(l: Ledger<M>, n: nat): Ledger<M>
    requires WellFormed(l) && l.lent == []
  {
    l.(stored := Oldest(n, l.stored), lent := Reverse(Newest(n, l.stored)), newer := 0)
  }

  lemma BatchCases<M>(l: Ledger<M>, n: nat)
    requires WellFormed(l) && l.lent == []
    ensures WellFormed(Batch(l, n))
    ensures Min(|l.stored|, n) == 0 ==> Batch(l, n) == l
    ensures var lo := |l.stored| - Min(|l.stored|, n);
      Batch(l, n).stored == l.stored[..lo] && Batch(l, n).lent == Reverse(l.stored[lo..])
  {
  }

  /** The lent batch was written. */
  function Accept<M>(l: Ledger<M>): Ledger<M> {
    l.(lent := [], newer := 0, accepted := l.accepted + l.lent)
  }

  /** Where the lent batch goes when it comes back: between older and newer. */
  function Restored<M>(l: Ledger<M>): seq<M>
    requires WellFormed(l)
  {
    Older(l) + Reverse(l.lent) + Newer(l)
  }

  /** How many metrics of the batch fit beside the newer ones. */
  function Restore(l: Ledger): nat
    requires WellFormed(l)
  {
    Min(|l.lent|, l.cap - NewerStored(l))
  }

  /** How many older metrics have to make room for them. */
  function Evicted(l: Ledger): (c: nat)
    requires WellFormed(l)
    ensures c <= |Older(l)|
  {
    Max(0, |l.stored| + Restore(l) - l.cap)
  }

  /** The metrics that a `Reject` drops, in that order: older ones, newest first, then the batch's tail. */
  function RejectDrops<M>(l: Ledger<M>): seq<M>
    requires WellFormed(l)
  {
    Reverse(Older(l)[..Evicted(l)]) + l.lent[Restore(l)..]
  }

  /** The lent batch comes back: the newest `cap` metrics of `Restored` stay. */
  function Reject<M>(l: Ledger<M>): Ledger<M>
    requires WellFormed(l)
  {
    l.(stored := Newest(l.cap, Restored(l)),
       lent := [],
       newer := 0,
       rejected := l.rejected + RejectDrops(l))
  }

  /** The metrics left out of the restored buffer: evicted older ones, then the oldest of the batch. */
  lemma LeftOut<M>(l: Ledger<M>)
    requires WellFormed(l)
    ensures Oldest(l.cap, Restored(l)) == Older(l)[..Evicted(l)] + Reverse(l.lent[Restore(l)..])
  {
    hide Reverse, Excess, Evicted, Restore, Older, Newer, WellFormed;
    RejectCut(l);
    TakeFront(Older(l), Reverse(l.lent), Newer(l), Evicted(l), |l.lent| - Restore(l));
    ReverseSuffix(l.lent, Restore(l));
  }

  /** Older metrics make room before metrics of the batch do. */
  lemma RejectCut<M>(l: Ledger<M>)
    requires WellFormed(l)
    ensures Evicted(l) <= |Older(l)| && Restore(l) <= |l.lent| && (Restore(l) == |l.lent| || Evicted(l) == |Older(l)|)
    ensures Excess(l.cap, Restored(l)) == Evicted(l) + (|l.lent| - Restore(l))
  {
  }

  /** Each metric left out of the restored buffer is rejected, exactly once. */
  lemma RejectLeavesOut<M>(l: Ledger<M>)
    requires WellFormed(l)
    ensures multiset(RejectDrops(l)) == multiset(Oldest(l.cap, Restored(l)))
  {
    var a, b := Older(l)[..Evicted(l)], l.lent[Restore(l)..];
    LeftOut(l);
    ReverseMultiset(a);
    ReverseMultiset(b);
    assert multiset(a + Reverse(b)) == multiset(a) + multiset(b);
  }

  // ---------- what the code does with a batch that comes back ----------

  /** How many of the stored metrics lie in front of the batch window. */
  function Ahead(l: Ledger): (o: nat)
    requires WellFormed(l) && l.lent != []
    ensures o < l.cap && o <= |l.stored|
    ensures Overrun(l) ==> 0 < o && |l.stored| == l.cap
  {
    if Overrun(l) then l.cap - (l.newer - l.cap - |l.lent|) % l.cap else |l.stored| - NewerStored(l)
  }

  /** How many the code takes to lie there: `first` falls one behind with each metric that is lost. */
  function Guess(l: Ledger): (o: nat)
    requires WellFormed(l) && l.lent != []
    ensures o < l.cap && (l.lost == [] ==> o == Ahead(l))
  {
    ModSmall(Ahead(l), l.cap);
    (Ahead(l) + |l.lost|) % l.cap
  }

  /** How many metrics of the batch are put back. */
  function GoesBack(l: Ledger): (r: nat)
    requires WellFormed(l) && l.lent != []
    ensures r <= |l.lent| <= l.cap
  {
    Min(|l.lent|, l.cap - |l.stored| + Guess(l))
  }

  /** What becomes of stored and lent metrics. */
  datatype Back<M> = Back(stored: seq<M>, calls: seq<M>, gone: seq<M>)

  /** The `c` newest metrics, as a rotation that catches up with itself leaves them. */
  function Wrapped<M>(newer: seq<M>, c: nat): (w: seq<M>)
    requires 0 < c <= |newer|
    ensures |w| == c
  {
    var q := |newer| % c;
    newer[|newer| - q..] + newer[|newer| - c..|newer| - q]
  }

  /**
    Put `r` metrics of a batch back in front of all but the first `o` stored ones. If there is
    room for them among the slots that are free or hold those `o`, older metrics make way, and
    are rejected as long as a newer metric moves onto them. Otherwise the rotation does not
    start, because it would begin where it ends, or it catches up with itself.
  */
  function PutBack<M>(cap: nat, stored: seq<M>, batch: seq<M>, o: nat, r: nat): (b: Back<M>)
    requires o <= |stored| <= cap && r <= |batch| && r <= cap
    ensures |b.stored| == Min(|stored| + r, cap)
  {
    var d, free := |stored| - o, cap - |stored|;
    if d + r <= cap then
      var e := Max(0, r - free);
      var x := Min(d, e);
      Back(stored[e..o] + Reverse(batch[..r]) + stored[o..], Reverse(stored[e - x..e]) + batch[r..], stored[..e - x])
    else if d == cap then
      Back(stored[r..] + Reverse(batch[..r]), batch[r..], stored[..r])
    else if r == cap then
      Back(Reverse(batch[..r]), batch[r..], stored)
    else
      var c, v := cap - r, Max(0, r - d - free);
      var ring := Reverse(batch[..r]) + Wrapped(stored[o..], c);
      Back(ring[d - c..] + ring[..d - c],
           Reverse(stored[o..][..d - c]) + Reverse(stored[v..o]) + batch[r..],
           stored[..v])
  }

  function Returned<M>(l: Ledger<M>): (b: Back<M>)
    requires WellFormed(l) && l.lent != []
    ensures |b.stored| <= l.cap
  {
    PutBack(l.cap, l.stored, l.lent, Ahead(l), GoesBack(l))
  }

  /** What the buffer does with a batch that comes back. */
  function TakeBack<M>(l: Ledger<M>): (r: Ledger<M>)
    requires WellFormed(l)
    ensures WellFormed(r) && r.cap == l.cap && r.lent == []
  {
    if l.lent == [] then l
    else
      var b := Returned(l);
      l.(stored := b.stored, lent := [], newer := 0, rejected := l.rejected + b.calls, lost := l.lost + b.gone)
  }

  /** If as many metrics go back as should, everything is as promised. */
  lemma RightNumberIsRight<M>(l: Ledger<M>)
    requires WellFormed(l) && l.lent != [] && GoesBack(l) == Restore(l)
    ensures TakeBack(l) == Reject(l) && Returned(l).gone == []
  {
    hide Reject, Guess, Reverse;
    if Overrun(l) {
      NoneBack(l, Ahead(l));
    } else {
      RegularBack(l);
    }
    assert l.lost + [] == l.lost;
  }

  lemma NoneBack<M>(l: Ledger<M>, o: nat)
    requires WellFormed(l) && Overrun(l) && o <= |l.stored|
    ensures Restore(l) == 0
    ensures var b := PutBack(l.cap, l.stored, l.lent, o, 0);
      && b.gone == []
      && Reject(l) == l.(stored := b.stored, lent := [], newer := 0, rejected := l.rejected + b.calls)
  {
    hide Reverse;
    ReverseSuffix(l.lent, 0);
    assert l.stored[0..o] + [] + l.stored[o..] == l.stored;
  }

  lemma RegularBack<M>(l: Ledger<M>)
    requires WellFormed(l) && l.lent != [] && !Overrun(l)
    ensures var b := PutBack(l.cap, l.stored, l.lent, Ahead(l), Restore(l));
      && b.gone == []
      && Reject(l) == l.(stored := b.stored, lent := [], newer := 0, rejected := l.rejected + b.calls)
  {
    hide Reverse, Overrun, PutBack, Reject;
    PutBackRoom(l.cap, l.stored, l.lent, |Older(l)|, Restore(l));
    RejectKeeps(l);
  }

  lemma PutBackRoom<M>(cap: nat, stored: seq<M>, batch: seq<M>, o: nat, r: nat)
    requires o <= |stored| <= cap && r <= |batch| && r <= cap - o && |stored| - o + r <= cap
    ensures var older, e := stored[..o], Max(0, |stored| + r - cap);
      && e <= o
      && PutBack(cap, stored, batch, o, r) ==
        Back(older[e..] + Reverse(batch[..r]) + stored[o..], Reverse(older[..e]) + batch[r..], [])
  {
    hide Reverse;
    var e := Max(0, |stored| + r - cap);
    assert stored[..o][e..] == stored[e..o] && stored[..o][..e] == stored[0..e];
  }

  lemma RejectKeeps<M>(l: Ledger<M>)
    requires WellFormed(l)
    ensures Reject(l).stored == Older(l)[Evicted(l)..] + Reverse(l.lent[..Restore(l)]) + Newer(l)
    ensures Reject(l) == l.(stored := Reject(l).stored, lent := [], newer := 0, rejected := l.rejected + RejectDrops(l))
  {
    hide Reverse, RejectDrops, Excess, Evicted, Restore, Older, Newer, WellFormed;
    RejectCut(l);
    DropFront(Older(l), Reverse(l.lent), Newer(l), Evicted(l), |l.lent| - Restore(l));
    ReverseSuffix(l.lent, Restore(l));
  }

  /** If not, a metric of the batch or a stored one is where the other should be. */
  lemma WrongNumberIsWrong<M>(l: Ledger<M>)
    requires WellFormed(l) && l.lent != [] && (forall i :: 0 <= i < |l.lent| ==> l.lent[i] !in l.stored)
    requires GoesBack(l) != Restore(l)
    ensures Returned(l).stored != Reject(l).stored
  {
    hide Reverse, Guess;
    var r, o := GoesBack(l), Ahead(l);
    if |l.stored| - o + r > l.cap {
      TooManyBack(l);
    } else if Overrun(l) {
      SomeBack(l, o, r);
      NoneBack(l, o);
    } else if |Returned(l).stored| == |Reject(l).stored| {
      WrongNumberInside(l);
    }
  }

  lemma TooManyBack<M>(l: Ledger<M>)
    requires WellFormed(l) && l.lent != [] && (forall i :: 0 <= i < |l.lent| ==> l.lent[i] !in l.stored)
    requires l.cap < |l.stored| - Ahead(l) + GoesBack(l)
    ensures Returned(l).stored != Reject(l).stored
  {
    hide Overrun, Guess, PutBack, Reverse;
    var now, should := Returned(l).stored, Reject(l).stored;
    TooManyLast(l.cap, l.stored, l.lent, Ahead(l), GoesBack(l));
    RejectLast(l);
  }

  lemma TooManyLast<M>(cap: nat, stored: seq<M>, batch: seq<M>, o: nat, r: nat)
    requires o <= |stored| <= cap && r <= |batch| && r <= cap < |stored| - o + r
    ensures var b := PutBack(cap, stored, batch, o, r);
      |b.stored| == cap && 0 < cap && exists i :: 0 <= i < |batch| && b.stored[cap - 1] == batch[i]
  {
    var b := PutBack(cap, stored, batch, o, r);
    var d := |stored| - o;
    var i := if d == cap || r == cap then 0 else cap - d;
    assert b.stored[cap - 1] == batch[i];
  }

  lemma RejectLast<M>(l: Ledger<M>)
    requires WellFormed(l) && l.lent != [] && Ahead(l) < |l.stored|
    ensures var s := Reject(l).stored; s != [] && s[|s| - 1] in l.stored
  {
    var s := Reject(l).stored;
    assert s[|s| - 1] == l.stored[|l.stored| - 1];
  }

  lemma SomeBack<M>(l: Ledger<M>, o: nat, r: nat)
    requires l.lent != [] && 0 < o <= |l.stored| == l.cap && 0 < r <= |l.lent| && r <= o
    requires l.lent[0] !in l.stored
    ensures PutBack(l.cap, l.stored, l.lent, o, r).stored != l.stored
  {
    assert PutBack(l.cap, l.stored, l.lent, o, r).stored[o - 1] == l.lent[0];
    assert l.stored[o - 1] in l.stored;
  }

  lemma WrongNumberInside<M>(l: Ledger<M>)
    requires WellFormed(l) && l.lent != [] && (forall i :: 0 <= i < |l.lent| ==> l.lent[i] !in l.stored)
    requires GoesBack(l) != Restore(l) && !Overrun(l) && |l.stored| - Ahead(l) + GoesBack(l) <= l.cap
    requires |Returned(l).stored| == |Reject(l).stored|
    ensures Returned(l).stored != Reject(l).stored
  {
    hide Reject, Guess;
    var r, right, o, d := GoesBack(l), Restore(l), Ahead(l), |Newer(l)|;
    var now, should := Returned(l).stored, Reject(l).stored;
    var free := l.cap - |l.stored|;
    assert r < right;
    assert |now| == l.cap;
    var k := l.cap - d - r - 1;
    assert now[k] == l.stored[Max(0, r - free) + k];
    RejectKeeps(l);
    assert should[k] == l.lent[r];
  }

  /**
    The exact condition: the code keeps its promise if and only if it puts back as many
    metrics as it should, for a batch that is not also stored.
  */
  lemma PromiseKept<M>(l: Ledger<M>)
    requires WellFormed(l) && l.lent != [] && forall i :: 0 <= i < |l.lent| ==> l.lent[i] !in l.stored
    ensures TakeBack(l) == Reject(l) <==> GoesBack(l) == Restore(l)
    ensures TakeBack(l).stored == Reject(l).stored <==> GoesBack(l) == Restore(l)
  {
    hide Returned, Reject;
    if GoesBack(l) == Restore(l) {
      RightNumberIsRight(l);
    } else {
      WrongNumberIsWrong(l);
    }
  }

  /** For a buffer that has lost nothing, that is: if and only if it was not overrun. */
  lemma KeptUnlessOverrun(l: Ledger)
    requires WellFormed(l) && l.lent != [] && l.lost == []
    ensures GoesBack(l) == Restore(l) <==> !Overrun(l)
  {
  }

  /** More metrics are put back than lie behind the window, or they go straight over stored ones. */
  predicate Loses(l: Ledger)
    requires WellFormed(l)
  {
    l.lent != [] &&
    var o, r := Ahead(l), GoesBack(l);
    var d := |l.stored| - o;
    l.cap - o < r || (l.cap < d + r && (d == l.cap || r == l.cap))
  }

  /** Then, and only then, metrics vanish. */
  lemma VanishedExactly<M>(l: Ledger<M>)
    requires WellFormed(l) && l.lent != []
    ensures Returned(l).gone != [] <==> Loses(l)
  {
  }

  lemma BackLoses<M>(l: Ledger<M>)
    requires WellFormed(l) && l.lent != []
    ensures l.lost <= TakeBack(l).lost && (TakeBack(l).lost != l.lost <==> Loses(l))
  {
    hide Returned, Loses, WellFormed;
    VanishedExactly(l);
    assert |l.lost + Returned(l).gone| == |l.lost| + |Returned(l).gone|;
  }

  /** The first loss takes an overrun. */
  lemma FirstLossByOverrun(l: Ledger)
    requires WellFormed(l) && l.lost == [] && Loses(l)
    ensures Overrun(l)
  {
  }

  /** Each metric that was stored or lent is then stored, rejected or has vanished. */
  ghost predicate Balanced<M>(stored: seq<M>, batch: seq<M>, b: Back<M>) {
    multiset(stored) + multiset(batch) == multiset(b.stored) + multiset(b.calls) + multiset(b.gone)
  }

  lemma PutBackBalance<M>(cap: nat, stored: seq<M>, batch: seq<M>, o: nat, r: nat)
    requires o <= |stored| <= cap && r <= |batch| && r <= cap
    ensures Balanced(stored, batch, PutBack(cap, stored, batch, o, r))
  {
    hide Reverse, Wrapped, Balanced;
    var d, free := |stored| - o, cap - |stored|;
    if d + r <= cap {
      var e := Max(0, r - free);
      FitBalance(stored, batch, o, r, e, Min(d, e));
    } else if d == cap {
      StuckBalance(stored, batch, r);
    } else if r == cap {
      AllBalance(stored, batch, r);
    } else {
      WrapBalance(stored, batch, o, r, cap - r, Max(0, r - d - free));
    }
  }

  lemma FitBalance<M>(stored: seq<M>, batch: seq<M>, o: nat, r: nat, e: nat, x: nat)
    requires x <= e <= o <= |stored| && r <= |batch|
    ensures Balanced(stored, batch, Back(stored[e..o] + Reverse(batch[..r]) + stored[o..],
                                         Reverse(stored[e - x..e]) + batch[r..], stored[..e - x]))
  {
    hide Reverse;
    var gone, called, stay, newer := stored[..e - x], stored[e - x..e], stored[e..o], stored[o..];
    assert stored == gone + called + stay + newer;
    assert batch == batch[..r] + batch[r..];
    ReverseMultiset(batch[..r]);
    ReverseMultiset(called);
    SixWays(multiset(gone), multiset(called), multiset(stay), multiset(newer), multiset(batch[..r]),
            multiset(batch[r..]));
  }

  lemma StuckBalance<M>(stored: seq<M>, batch: seq<M>, r: nat)
    requires r <= |stored| && r <= |batch|
    ensures Balanced(stored, batch, Back(stored[r..] + Reverse(batch[..r]), batch[r..], stored[..r]))
  {
    hide Reverse;
    assert stored == stored[..r] + stored[r..] && batch == batch[..r] + batch[r..];
    ReverseMultiset(batch[..r]);
  }

  lemma AllBalance<M>(stored: seq<M>, batch: seq<M>, r: nat)
    requires r <= |batch|
    ensures Balanced(stored, batch, Back(Reverse(batch[..r]), batch[r..], stored))
  {
    hide Reverse;
    assert batch == batch[..r] + batch[r..];
    ReverseMultiset(batch[..r]);
  }

  lemma WrapBalance<M>(stored: seq<M>, batch: seq<M>, o: nat, r: nat, c: nat, v: nat)
    requires v <= o <= |stored| && r <= |batch| && 0 < c <= |stored| - o && |stored| - o - c <= r
    ensures var newer := stored[o..];
      var k := |newer| - c;
      var ring := Reverse(batch[..r]) + Wrapped(newer, c);
      Balanced(stored, batch, Back(ring[k..] + ring[..k],
                                   Reverse(newer[..k]) + Reverse(stored[v..o]) + batch[r..], stored[..v]))
  {
    hide Reverse, Wrapped;
    var newer := stored[o..];
    var k := |newer| - c;
    var ring := Reverse(batch[..r]) + Wrapped(newer, c);
    var gone, called := stored[..v], stored[v..o];
    assert stored == gone + called + (newer[..k] + newer[k..]);
    assert batch == batch[..r] + batch[r..];
    SplitMultiset(ring, k);
    assert multiset(ring) == multiset(Reverse(batch[..r])) + multiset(Wrapped(newer, c));
    WrappedMultiset(newer, c);
    ReverseMultiset(batch[..r]);
    ReverseMultiset(newer[..k]);
    ReverseMultiset(called);
    SixMore(multiset(gone), multiset(called), multiset(newer[..k]), multiset(newer[k..]),
            multiset(batch[..r]), multiset(batch[r..]));
  }

  lemma SixWays<M>(a: multiset<M>, b: multiset<M>, c: multiset<M>, d: multiset<M>, e: multiset<M>, f: multiset<M>)
    ensures (a + b + c + d) + (e + f) == (c + e + d) + (b + f) + a
  {
  }

  lemma SixMore<M>(a: multiset<M>, b: multiset<M>, c: multiset<M>, d: multiset<M>, e: multiset<M>, f: multiset<M>)
    ensures (a + b + (c + d)) + (e + f) == (e + d) + (c + b + f) + a
  {
  }

  lemma WrappedMultiset<M>(newer: seq<M>, c: nat)
    requires 0 < c <= |newer|
    ensures multiset(Wrapped(newer, c)) == multiset(newer[|newer| - c..])
  {
    var d, q := |newer|, |newer| % c;
    assert newer[d - c..] == newer[d - c..d - q] + newer[d - q..];
  }

  lemma TakeBackBalance<M>(l: Ledger<M>)
    requires WellFormed(l) && l.lent != []
    ensures Balanced(l.stored, l.lent, Returned(l))
  {
    PutBackBalance(l.cap, l.stored, l.lent, Ahead(l), GoesBack(l));
  }

  // ---------- conservation ----------

  /** What is stored changes from `s` to `s'`, gaining `gain` and losing `calls` to the rejected. */
  lemma Balance<M>(total: multiset<M>, a: multiset<M>, r: multiset<M>, s: multiset<M>, l: multiset<M>, x: multiset<M>,
                   gain: multiset<M>, calls: multiset<M>, s': multiset<M>)
    requires total == a + r + s + l + x
    requires s + gain == calls + s'
    ensures total + gain == a + (r + calls) + s' + l + x
  {
    forall m ensures (total + gain)[m] == (a + (r + calls) + s' + l + x)[m] {
      assert (s + gain)[m] == (calls + s')[m];
    }
  }

  lemma AddConserves<M>(l: Ledger<M>, m: M)
    requires WellFormed(l) && Conserved(l)
    ensures Conserved(Add(l, m))
  {
    NewestOldest(l.cap, l.stored + [m]);
    assert multiset(l.stored + [m]) == multiset(l.stored) + multiset{m};
    Balance(multiset(l.added), multiset(l.accepted), multiset(l.rejected), multiset(l.stored), multiset(l.lent),
            multiset(l.lost), multiset{m}, multiset(Oldest(l.cap, l.stored + [m])),
            multiset(Newest(l.cap, l.stored + [m])));
  }

  /** `Add` by cases: a full buffer loses exactly its oldest metric, another one nothing. */
  lemma AddCases<M>(l: Ledger<M>, m: M)
    requires WellFormed(l)
    ensures WellFormed(Add(l, m))
    ensures |l.stored| < l.cap ==> Add(l, m).stored == l.stored + [m] && Add(l, m).rejected == l.rejected
    ensures |l.stored| == l.cap ==>
      Add(l, m).stored == l.stored[1..] + [m] && Add(l, m).rejected == l.rejected + [l.stored[0]]
    ensures |Add(l, m).stored| == Min(|l.stored| + 1, l.cap)
  {
  }

  lemma AddStored<M>(l: Ledger<M>, m: M)
    requires WellFormed(l)
    ensures Add(l, m).stored == Newest(l.cap, l.stored + [m])
    ensures |l.stored| == l.cap ==> 0 < |l.stored|
  {
  }

  lemma {:induction false} AddAllConserves<M>(l: Ledger<M>, ms: seq<M>)
    requires WellFormed(l) && Conserved(l)
    ensures Conserved(AddAll(l, ms))
  {
    if ms != [] {
      AddAllConserves(l, ms[..|ms| - 1]);
      AddConserves(AddAll(l, ms[..|ms| - 1]), ms[|ms| - 1]);
    }
  }

  lemma BatchConserves<M>(l: Ledger<M>, n: nat)
    requires WellFormed(l) && l.lent == [] && Conserved(l)
    ensures Conserved(Batch(l, n))
  {
    NewestOldest(n, l.stored);
    ReverseMultiset(Newest(n, l.stored));
  }

  lemma AcceptConserves<M>(l: Ledger<M>)
    requires Conserved(l)
    ensures Conserved(Accept(l))
  {
    assert multiset(l.accepted + l.lent) == multiset(l.accepted) + multiset(l.lent);
  }

  lemma RestoredMultiset<M>(l: Ledger<M>)
    requires WellFormed(l)
    ensures multiset(Restored(l)) == multiset(l.stored) + multiset(l.lent)
  {
    SplitMultiset(l.stored, |l.stored| - NewerStored(l));
    ReverseMultiset(l.lent);
  }

  /** Whatever happened while the batch was out, each metric is then stored, rejected or lost. */
  lemma TakeBackConserves<M>(l: Ledger<M>)
    requires WellFormed(l) && Conserved(l)
    ensures Conserved(TakeBack(l))
  {
    hide Returned, WellFormed;
    if l.lent != [] {
      var b := Returned(l);
      TakeBackBalance(l);
      assert multiset(l.rejected + b.calls) == multiset(l.rejected) + multiset(b.calls);
      assert multiset(l.lost + b.gone) == multiset(l.lost) + multiset(b.gone);
      Settle(multiset(l.added), multiset(l.accepted), multiset(l.rejected), multiset(l.stored), multiset(l.lent),
             multiset(l.lost), multiset(b.calls), multiset(b.gone), multiset(b.stored));
    }
  }

  lemma Settle<M>(total: multiset<M>, a: multiset<M>, r: multiset<M>, s: multiset<M>, l: multiset<M>, x: multiset<M>,
                  calls: multiset<M>, gone: multiset<M>, s': multiset<M>)
    requires total == a + r + s + l + x
    requires s + l == s' + calls + gone
    ensures total == a + (r + calls) + s' + multiset{} + (x + gone)
  {
    forall m ensures total[m] == (a + (r + calls) + s' + (x + gone))[m] {
      assert (s + l)[m] == (s' + calls + gone)[m];
    }
  }

  /** The metrics that an `Add` drops. */
  function AddDrops<M>(l: Ledger<M>, m: M): seq<M>
    requires WellFormed(l)
  {
    Oldest(l.cap, l.stored + [m])
  }

  lemma AddBalance<M>(l: Ledger<M>, m: M)
    requires WellFormed(l)
    ensures multiset(l.stored) + multiset{m} == multiset(Add(l, m).stored) + multiset(AddDrops(l, m))
    ensures Add(l, m).rejected == l.rejected + AddDrops(l, m)
  {
    NewestOldest(l.cap, l.stored + [m]);
  }

  lemma BatchBalance<M>(l: Ledger<M>, n: nat)
    requires WellFormed(l) && l.lent == []
    ensures multiset(l.stored) == multiset(Batch(l, n).stored) + multiset(Batch(l, n).lent)
  {
    NewestOldest(n, l.stored);
    ReverseMultiset(Newest(n, l.stored));
  }

  lemma RejectBalance<M>(l: Ledger<M>)
    requires WellFormed(l)
    ensures multiset(l.stored) + multiset(l.lent) == multiset(Reject(l).stored) + multiset(RejectDrops(l))
  {
    RestoredMultiset(l);
    NewestOldest(l.cap, Restored(l));
    RejectLeavesOut(l);
  }

  /** What a caller may do to a buffer; `Return(true)` is an accepted batch, `Return(false)` a rejected one. */
  datatype Op<M> = Put(m: M) | Take(n: nat) | Return(ok: bool)

  predicate Enabled(l: Ledger, op: Op)
    requires WellFormed(l)
  {
    match op
    case Put(_) => true
    case Take(_) => l.lent == []
    case Return(_) => l.lent != []
  }

  function Apply<M>(l: Ledger<M>, op: Op<M>): (r: Ledger<M>)
    requires WellFormed(l) && Enabled(l, op)
    ensures WellFormed(r)
  {
    match op
    case Put(m) => Add(l, m)
    case Take(n) => Batch(l, n)
    case Return(ok) => if ok then Accept(l) else TakeBack(l)
  }

  lemma ApplyConserves<M>(l: Ledger<M>, op: Op<M>)
    requires WellFormed(l) && Enabled(l, op) && Conserved(l)
    ensures Conserved(Apply(l, op))
  {
    match op
    case Put(m) => AddConserves(l, m);
    case Take(n) => BatchConserves(l, n);
    case Return(ok) => if ok { AcceptConserves(l); } else { TakeBackConserves(l); }
  }

  lemma ApplyAdds<M>(l: Ledger<M>, op: Op<M>)
    requires WellFormed(l) && Enabled(l, op)
    ensures Apply(l, op).added == l.added + if op.Put? then [op.m] else []
  {
  }

  lemma ApplyLoses<M>(l: Ledger<M>, op: Op<M>)
    requires WellFormed(l) && Enabled(l, op)
    ensures Apply(l, op).lost == l.lost || (op == Return(false) && Loses(l) && (l.lost == [] ==> Overrun(l)))
  {
    if op == Return(false) {
      VanishedExactly(l);
      assert l.lost + [] == l.lost;
      if l.lost == [] && Loses(l) {
        FirstLossByOverrun(l);
      }
    }
  }

  lemma EmptyConserves<M>(cap: nat)
    requires 1 <= cap
    ensures WellFormed(Empty<M>(cap)) && Conserved(Empty<M>(cap))
  {
  }

  /** `ls` are the states of a buffer of capacity `cap` through the calls `ops`. */
  ghost predicate Run<M>(cap: nat, ops: seq<Op<M>>, ls: seq<Ledger<M>>) {
    && 1 <= cap
    && |ls| == |ops| + 1
    && ls[0] == Empty(cap)
    && forall i :: 0 <= i < |ops| ==>
      WellFormed(ls[i]) && Enabled(ls[i], ops[i]) && ls[i + 1] == Apply(ls[i], ops[i])
  }

  function Puts<M>(ops: seq<Op<M>>): seq<M> {
    if ops == [] then []
    else Puts(ops[..|ops| - 1]) + (if ops[|ops| - 1].Put? then [ops[|ops| - 1].m] else [])
  }

  /**
    Conservation over whole runs: in every reachable state the metrics put in are
    exactly those accepted, rejected, stored, lent out or lost. The first loss is by a
    batch that comes back after an overrun.
  */
  lemma {:induction false} RunConserves<M>(cap: nat, ops: seq<Op<M>>, ls: seq<Ledger<M>>, k: nat)
    requires Run(cap, ops, ls) && k <= |ops|
    ensures WellFormed(ls[k]) && Conserved(ls[k])
    ensures ls[k].added == Puts(ops[..k])
    ensures ls[k].lost != [] ==>
      exists j :: 0 <= j < k && ops[j] == Return(false) && ls[j].lost == [] && Overrun(ls[j]) && Loses(ls[j])
  {
    hide Apply, Conserved, WellFormed, Enabled, Loses, Overrun;
    if k == 0 {
      EmptyConserves<M>(cap);
    } else {
      RunConserves(cap, ops, ls, k - 1);
      ApplyConserves(ls[k - 1], ops[k - 1]);
      ApplyAdds(ls[k - 1], ops[k - 1]);
      ApplyLoses(ls[k - 1], ops[k - 1]);
      assert ops[..k][..k - 1] == ops[..k - 1];
      assert ls[k - 1 + 1] == Apply(ls[k - 1], ops[k - 1]);
    }
  }

  /**
    A metric is in as many places as it was put in. So one that was put in once is never
    both accepted and rejected, never finished twice, and never finished while still held.
  */
  lemma FinishedOnce<M>(cap: nat, ops: seq<Op<M>>, ls: seq<Ledger<M>>, k: nat, m: M)
    requires Run(cap, ops, ls) && k <= |ops|
    ensures multiset(ls[k].accepted)[m] + multiset(ls[k].rejected)[m] + multiset(ls[k].stored)[m]
      + multiset(ls[k].lent)[m] + multiset(ls[k].lost)[m] == multiset(Puts(ops[..k]))[m]
  {
    RunConserves(cap, ops, ls, k);
  }
}
