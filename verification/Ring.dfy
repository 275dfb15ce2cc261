/**
  Facts about a ring of slots, on plain sequences: indexes that wrap, what a ring
  stores, and how the steps of `Batch` and `Reject` in `internal/models/buffer.go`
  change it.
*/
module Ring {
  import opened Seqs
  import opened BufferSpec

  /** A slot of the ring: nil, or a metric. */
  datatype Slot<+M> = Nil | Full(metric: M)

  /** The index `j` places after `base` in a ring of `cap` slots, for `0 <= j <= cap`. */
  function At(cap: nat, base: nat, j: nat): (i: nat)
    requires base < cap && j <= cap
    ensures i < cap
  {
    if base + j < cap then base + j else base + j - cap
  }

  lemma AtAt(cap: nat, base: nat, j: nat, k: nat)
    requires base < cap && j <= cap && k <= cap
    ensures At(cap, At(cap, base, j), k) == if j + k <= cap then At(cap, base, j + k) else At(cap, base, j + k - cap)
  {
  }

  lemma AtBack(cap: nat, base: nat, j: nat, i: nat)
    requires base < cap && 0 < j <= cap && i < cap && At(cap, i, 1) == At(cap, base, j)
    ensures i == At(cap, base, j - 1)
  {
  }

  /** The index `x` places after `base`, counting any number of laps. */
  function Lap(cap: nat, base: nat, x: nat): (i: nat)
    requires base < cap
    ensures i < cap
  {
    if x == 0 then base else At(cap, Lap(cap, base, x - 1), 1)
  }

  lemma ModUnique(d: nat, q: nat, r: nat)
    requires r < d
    ensures (q * d + r) % d == r
  {
    var x := q * d + r;
    var a, b := x / d, x % d;
    assert x == a * d + b;
    assert (q - a) * d == b - r;
    if a < q {
      MultipleAtLeast(q - a, d);
      assert false;
    } else if q < a {
      MultipleAtLeast(a - q, d);
      assert false;
    }
  }

  lemma MultipleAtLeast(k: int, d: nat)
    requires 1 <= k
    ensures d <= k * d
  {
    assert k * d == (k - 1) * d + d;
    assert 0 <= (k - 1) * d;
  }

  lemma ModOnce(d: nat, x: nat)
    requires 0 < d
    ensures x < d ==> x % d == x
    ensures d <= x < 2 * d ==> x % d == x - d
  {
    if x < d {
      ModUnique(d, 0, x);
    } else if x < 2 * d {
      ModUnique(d, 1, x - d);
    }
  }

  /** Where `Batch` finds its first metric, counting back from the end of the ring. */
  lemma BatchIndex(cap: nat, first: nat, size: nat, n: nat)
    requires first < cap && n <= size <= cap
    ensures (cap + At(cap, first, size) - n) % cap == At(cap, first, size - n)
  {
    ModOnce(cap, cap + At(cap, first, size) - n);
  }

  /**
    Where the lent batch of `n` metrics came from, after `newer` metrics were added
    since: `batchFirst` separates older from newer metrics until every older one is
    gone, then moves with `first` while the batch's own window is overwritten, then
    stays behind.
  */
  predicate Window(cap: nat, first: nat, size: nat, n: nat, newer: nat, batchFirst: nat, batchSize: nat)
    requires first < cap && size <= cap
  {
    if n == 0 then
      batchSize == 0
    else if newer <= cap then
      batchSize == n && newer <= size && batchFirst == At(cap, first, size - newer)
    else if newer <= cap + n then
      batchSize == n - (newer - cap) && size == cap && batchFirst == first
    else
      batchSize == 0 && size == cap && batchFirst < cap && first == Lap(cap, batchFirst, newer - cap - n)
  }

  lemma WindowPut(cap: nat, first: nat, size: nat, n: nat, newer: nat, batchFirst: nat, batchSize: nat)
    requires first < cap && size <= cap && (size == cap ==> n <= newer)
    requires Window(cap, first, size, n, newer, batchFirst, batchSize)
    ensures var hit := size == cap && first == batchFirst && 0 < batchSize;
      Window(cap, if size == cap then At(cap, first, 1) else first, Min(size + 1, cap),
             n, if n == 0 then 0 else newer + 1,
             if hit then At(cap, first, 1) else batchFirst, if hit then batchSize - 1 else batchSize)
  {
    if 0 < n && cap + n <= newer {
      assert Lap(cap, batchFirst, newer - cap - n + 1) == At(cap, Lap(cap, batchFirst, newer - cap - n), 1);
    }
  }

  /**
    `slots` is the ring that stores `s` from `first` on: the stored metrics occupy
    exactly the |s| slots from `first`, with wrapping, and every other slot is nil.
  */
  ghost predicate Stores<M>(slots: seq<Slot<M>>, first: nat, s: seq<M>) {
    && first < |slots| && |s| <= |slots|
    && forall j {:trigger At(|slots|, first, j)} :: 0 <= j < |slots| ==>
      slots[At(|slots|, first, j)] == if j < |s| then Full(s[j]) else Nil
  }

  /** Writing at the end of a ring with room appends. */
  lemma StoreRoom<M>(slots: seq<Slot<M>>, first: nat, s: seq<M>, m: M)
    requires Stores(slots, first, s) && |s| < |slots|
    ensures Stores(slots[At(|slots|, first, |s|) := Full(m)], first, Newest(|slots|, s + [m]))
  {
  }

  /** Writing at the end of a full ring overwrites the oldest metric. */
  lemma StoreFull<M>(slots: seq<Slot<M>>, first: nat, s: seq<M>, m: M)
    requires Stores(slots, first, s) && |s| == |slots|
    ensures At(|slots|, first, |slots|) == first && slots[first] == Full(s[0])
    ensures Stores(slots[first := Full(m)], At(|slots|, first, 1), Newest(|slots|, s + [m]))
  {
    var cap := |slots|;
    assert Newest(cap, s + [m]) == s[1..] + [m];
    assert first == At(cap, first, 0);
    forall j | 0 <= j < cap
      ensures At(cap, At(cap, first, 1), j) == At(cap, first, j + 1)
    {
      AtAt(cap, first, 1, j);
    }
  }

  /** The ring `s` from which the metrics `lo..hi` were taken out. */
  ghost predicate Lending<M>(slots: seq<Slot<M>>, first: nat, s: seq<M>, lo: nat, hi: nat) {
    && first < |slots| && lo <= hi <= |s| <= |slots|
    && forall j {:trigger At(|slots|, first, j)} :: 0 <= j < |slots| ==>
      slots[At(|slots|, first, j)] == if j < lo || hi <= j < |s| then Full(s[j]) else Nil
  }

  lemma LendStart<M>(slots: seq<Slot<M>>, first: nat, s: seq<M>, lo: nat)
    requires Stores(slots, first, s) && lo <= |s|
    ensures Lending(slots, first, s, lo, lo)
  {
  }

  lemma LendStep<M>(slots: seq<Slot<M>>, first: nat, s: seq<M>, lo: nat, hi: nat)
    requires Lending(slots, first, s, lo, hi) && hi < |s|
    ensures slots[At(|slots|, first, hi)] == Full(s[hi])
    ensures Lending(slots[At(|slots|, first, hi) := Nil], first, s, lo, hi + 1)
  {
  }

  lemma LendEnd<M>(slots: seq<Slot<M>>, first: nat, s: seq<M>, lo: nat)
    requires Lending(slots, first, s, lo, |s|)
    ensures Stores(slots, first, s[..lo])
  {
  }

  /** The metrics `lo..hi` of `s`, newest first. */
  ghost function Backwards<M>(s: seq<M>, lo: nat, hi: nat): seq<M>
    requires lo <= hi <= |s|
  {
    if lo == hi then [] else [s[hi - 1]] + Backwards(s, lo, hi - 1)
  }

  lemma {:induction false} BackwardsReverse<M>(s: seq<M>, lo: nat, hi: nat)
    requires lo <= hi <= |s|
    ensures Backwards(s, lo, hi) == Reverse(s[lo..hi])
    ensures hi == |s| ==> Backwards(s, lo, hi) == Reverse(s[lo..])
  {
    if lo < hi {
      BackwardsReverse(s, lo, hi - 1);
    }
    assert hi == |s| ==> s[lo..hi] == s[lo..];
  }

  /**
    A ring seen from index `rb`: first the metrics `newer`, then `free` nil slots,
    then the metrics `older`.
  */
  ghost predicate Laid<M>(slots: seq<Slot<M>>, rb: nat, newer: seq<M>, free: nat, older: seq<M>) {
    && rb < |slots| && |newer| + free + |older| == |slots|
    && forall j {:trigger At(|slots|, rb, j)} :: 0 <= j < |slots| ==>
      slots[At(|slots|, rb, j)] == (
        if j < |newer| then Full(newer[j])
        else if j < |newer| + free then Nil
        else Full(older[j - |newer| - free]))
  }

  /** Any ring can be seen from the index that separates some older metrics from the others. */
  lemma LayOut<M>(slots: seq<Slot<M>>, first: nat, older: seq<M>, newer: seq<M>)
    requires Stores(slots, first, older + newer)
    ensures var cap, free := |slots|, |slots| - |older| - |newer|;
      && Laid(slots, At(cap, first, |older|), newer, free, older)
      && At(cap, first, |older| + |newer|) == At(cap, At(cap, first, |older|), |newer|)
  {
    var cap, o := |slots|, |older|;
    forall j | 0 <= j < cap
      ensures At(cap, At(cap, first, o), j) == At(cap, first, if o + j < cap then o + j else o + j - cap)
    {
      AtAt(cap, first, o, j);
    }
    AtAt(cap, first, o, |newer|);
  }

  /**
    The ring after `t` of its newer metrics, the newest first, were moved `r` slots
    forward: what lay there is overwritten, what they leave behind is nil.
  */
  ghost predicate Moved<M>(slots: seq<Slot<M>>, rb: nat, newer: seq<M>, free: nat, older: seq<M>, r: nat, t: nat) {
    var d := |newer|;
    && rb < |slots| && d + free + |older| == |slots| && t <= d && d + r <= |slots|
    && forall j {:trigger At(|slots|, rb, j)} :: 0 <= j < |slots| ==>
      slots[At(|slots|, rb, j)] == (
        if d - t + r <= j < d + r then Full(newer[j - r])
        else if j < d - t then Full(newer[j])
        else if j < d + free then Nil
        else Full(older[j - d - free]))
  }

  lemma MoveStart<M>(slots: seq<Slot<M>>, rb: nat, newer: seq<M>, free: nat, older: seq<M>, r: nat)
    requires Laid(slots, rb, newer, free, older) && r <= free + |older|
    ensures Moved(slots, rb, newer, free, older, r, 0)
  {
  }

  /** Moving nowhere is done from the start. */
  lemma MoveNowhere<M>(slots: seq<Slot<M>>, rb: nat, newer: seq<M>, free: nat, older: seq<M>)
    requires Moved(slots, rb, newer, free, older, 0, 0)
    ensures Moved(slots, rb, newer, free, older, 0, |newer|)
  {
  }

  /** Which slot the next move overwrites: an older metric, or nothing. */
  lemma MoveOnto<M>(slots: seq<Slot<M>>, rb: nat, newer: seq<M>, free: nat, older: seq<M>, r: nat, t: nat)
    requires Moved(slots, rb, newer, free, older, r, t) && t < |newer| && 0 < r
    ensures slots[At(|slots|, rb, |newer| - t - 1)] == Full(newer[|newer| - t - 1])
    ensures slots[At(|slots|, rb, |newer| - t - 1 + r)] ==
      if free + t < r then Full(older[r - free - t - 1]) else Nil
  {
  }

  lemma MoveStep<M>(slots: seq<Slot<M>>, rb: nat, newer: seq<M>, free: nat, older: seq<M>, r: nat, t: nat)
    requires Moved(slots, rb, newer, free, older, r, t) && t < |newer| && 0 < r
    ensures var p := At(|slots|, rb, |newer| - t - 1);
      Moved(slots[At(|slots|, rb, |newer| - t - 1 + r) := slots[p]][p := Nil], rb, newer, free, older, r, t + 1)
  {
  }

  /** The ring after the moves, with the `i` newest metrics of the batch copied back. */
  ghost predicate Refilled<M>(slots: seq<Slot<M>>, rb: nat, newer: seq<M>, free: nat, older: seq<M>,
                              batch: seq<M>, r: nat, i: nat) {
    var d := |newer|;
    && rb < |slots| && d + free + |older| == |slots| && i <= r <= |batch| && d + r <= |slots|
    && forall j {:trigger At(|slots|, rb, j)} :: 0 <= j < |slots| ==>
      slots[At(|slots|, rb, j)] == (
        if r <= j < d + r then Full(newer[j - r])
        else if r - i <= j < r then Full(batch[r - 1 - j])
        else if j < d + free then Nil
        else Full(older[j - d - free]))
  }

  /** The metrics that stay when the batch comes back: evicted older ones and the batch's tail are gone. */
  function Kept<M>(newer: seq<M>, free: nat, older: seq<M>, batch: seq<M>, r: nat): seq<M>
    requires r <= |batch| && r <= free + |older|
  {
    older[Max(0, r - free)..] + Reverse(batch[..r]) + newer
  }

  /** The refilled ring stores exactly the kept metrics, from the oldest of them on. */
  lemma RefillEnd<M>(slots: seq<Slot<M>>, rb: nat, newer: seq<M>, free: nat, older: seq<M>, batch: seq<M>, r: nat)
    requires Refilled(slots, rb, newer, free, older, batch, r, r) && r <= free + |older|
    ensures Stores(slots, At(|slots|, rb, |newer| + Max(free, r)), Kept(newer, free, older, batch, r))
  {
    var cap, p, s := |slots|, |newer| + Max(free, r), Kept(newer, free, older, batch, r);
    forall j | 0 <= j < cap
      ensures slots[At(cap, At(cap, rb, p), j)] == if j < |s| then Full(s[j]) else Nil
    {
      var c := if p + j < cap then p + j else p + j - cap;
      assert At(cap, At(cap, rb, p), j) == At(cap, rb, c);
    }
  }

  /** After whole laps, and only then, an index is back where it started. */
  lemma {:induction false} LapHome(cap: nat, base: nat, x: nat)
    requires base < cap
    ensures Lap(cap, base, x) == At(cap, base, x % cap)
    ensures Lap(cap, base, x) == base <==> x % cap == 0
  {
    if x == 0 {
      ModOnce(cap, 0);
    } else {
      LapHome(cap, base, x - 1);
      ModNext(cap, x - 1);
    }
  }

  lemma ModNext(d: nat, x: nat)
    requires 0 < d
    ensures (x + 1) % d == if x % d + 1 == d then 0 else x % d + 1
  {
    var q, r := x / d, x % d;
    assert x + 1 == q * d + (r + 1);
    if r + 1 < d {
      ModUnique(d, q, r + 1);
    } else {
      assert q * d + d == (q + 1) * d;
      ModUnique(d, q + 1, 0);
    }
  }

  lemma WindowBound<M>(l: Ledger<M>, first: nat, batchFirst: nat, batchSize: nat)
    requires WellFormed(l) && l.lent != []
    requires first < l.cap && Window(l.cap, first, |l.stored|, |l.lent|, l.newer, batchFirst, batchSize)
    ensures batchFirst < l.cap
  {
  }

  /**
    The batch window tells the older metrics from the newer ones unless the buffer
    was overrun; then it lies somewhere among metrics that are all newer.
  */
  lemma WindowDist<M>(l: Ledger<M>, first: nat, batchFirst: nat, batchSize: nat, dist: nat)
    requires WellFormed(l) && l.lent != []
    requires first < l.cap && Window(l.cap, first, |l.stored|, |l.lent|, l.newer, batchFirst, batchSize)
    requires dist < l.cap && At(l.cap, first, dist) == batchFirst
    ensures Overrun(l) <==> batchSize == 0 && first != batchFirst
    ensures dist == Ahead(l)
    ensures !Overrun(l) ==> l.stored[..dist] == Older(l) && l.stored[dist..] == Newer(l)
  {
    if l.cap + |l.lent| < l.newer {
      LapHome(l.cap, batchFirst, l.newer - l.cap - |l.lent|);
    }
  }

  lemma {:induction false} BackwardsLength<M>(s: seq<M>, lo: nat, hi: nat)
    requires lo <= hi <= |s|
    ensures |Backwards(s, lo, hi)| == hi - lo
  {
    if lo < hi {
      BackwardsLength(s, lo, hi - 1);
    }
  }

  // ---------- laps ----------

  lemma {:induction false} LapAdd(cap: nat, base: nat, x: nat, y: nat)
    requires base < cap
    ensures Lap(cap, Lap(cap, base, x), y) == Lap(cap, base, x + y)
  {
    if 0 < y {
      LapAdd(cap, base, x, y - 1);
    }
  }

  lemma LapAt(cap: nat, base: nat, j: nat)
    requires base < cap && j <= cap
    ensures Lap(cap, base, j) == At(cap, base, j)
  {
    LapHome(cap, base, j);
    ModOnce(cap, j);
  }

  /** Stepping on commutes with going any number of places. */
  lemma LapNext(cap: nat, base: nat, x: nat)
    requires base < cap
    ensures Lap(cap, At(cap, base, 1), x) == At(cap, Lap(cap, base, x), 1)
  {
    LapAt(cap, base, 1);
    LapAdd(cap, base, 1, x);
  }

  /** How far it is from an index that lags behind. */
  lemma LaggingDist(cap: nat, first: nat, lag: nat, o: nat, dist: nat)
    requires first < cap && o < cap && dist < cap
    requires At(cap, first, dist) == At(cap, Lap(cap, first, lag), o)
    ensures dist == (o + lag) % cap
  {
    LapAt(cap, Lap(cap, first, lag), o);
    LapAdd(cap, first, lag, o);
    LapHome(cap, first, lag + o);
    assert (lag + o) % cap < cap;
  }

  // ---------- the loops of `Reject`, on slots ----------

  /** The index before another one. */
  function Back1(cap: nat, i: nat): (j: nat)
    requires i < cap
    ensures j < cap && At(cap, j, 1) == i
  {
    if i == 0 then cap - 1 else i - 1
  }

  /** How many places `end` is after `begin`. */
  function Between(cap: nat, begin: nat, end: nat): (d: nat)
    requires begin < cap && end < cap
    ensures d < cap && At(cap, begin, d) == end
  {
    if begin <= end then end - begin else cap - begin + end
  }

  /** Where the rotation ends: the slots, the metrics it dropped, and the index it moved to last. */
  datatype Turned<M> = Turned(slots: seq<Slot<M>>, calls: seq<M>, re: nat)

  /** The rotation: move metrics from before `rp` to before `re`, until there is nothing left to move. */
  function Turn<M>(slots: seq<Slot<M>>, rb: nat, rp: nat, re: nat): (t: Turned<M>)
    requires rb < |slots| && rp < |slots| && re < |slots|
    ensures |t.slots| == |slots| && t.re < |slots|
    decreases Between(|slots|, rb, rp)
  {
    if rb == rp || rp == re then Turned(slots, [], re)
    else
      var p, e := Back1(|slots|, rp), Back1(|slots|, re);
      var next := Turn(slots[e := slots[p]][p := Nil], rb, p, e);
      next.(calls := (if slots[e].Full? then [slots[e].metric] else []) + next.calls)
  }

  lemma TurnStep<M>(slots: seq<Slot<M>>, rb: nat, rp: nat, re: nat)
    requires rb < |slots| && rp < |slots| && re < |slots|
    ensures rb == rp || rp == re ==> Turn(slots, rb, rp, re) == Turned(slots, [], re)
    ensures rb != rp && rp != re ==>
      var p, e := Back1(|slots|, rp), Back1(|slots|, re);
      var next := Turn(slots[e := slots[p]][p := Nil], rb, p, e);
      && Between(|slots|, rb, p) < Between(|slots|, rb, rp)
      && Turn(slots, rb, rp, re) ==
        next.(calls := (if slots[e].Full? then [slots[e].metric] else []) + next.calls)
  {
  }

  /** Copy the metrics of a batch from index `i` to `r` into the slots before `re`. */
  function Pour<M>(slots: seq<Slot<M>>, re: nat, batch: seq<M>, i: nat, r: nat): (s: seq<Slot<M>>)
    requires re < |slots| && i <= r <= |batch|
    ensures |s| == |slots|
    decreases r - i
  {
    if i == r then slots
    else
      var e := Back1(|slots|, re);
      Pour(slots[e := Full(batch[i])], e, batch, i + 1, r)
  }

  /** The slots `s` are `slots` with the metrics of the batch from `i` to `r` from `base` on, the newest last. */
  ghost predicate Poured<M>(slots: seq<Slot<M>>, s: seq<Slot<M>>, base: nat, batch: seq<M>, i: nat, r: nat) {
    && base < |slots| == |s| && i <= r <= |batch| && r <= |slots|
    && forall j {:trigger At(|slots|, base, j)} :: 0 <= j < |slots| ==>
      s[At(|slots|, base, j)] == if j < r - i then Full(batch[r - 1 - j]) else slots[At(|slots|, base, j)]
  }

  lemma {:induction false} PourIs<M>(slots: seq<Slot<M>>, base: nat, batch: seq<M>, i: nat, r: nat)
    requires base < |slots| && i <= r <= |batch| && r <= |slots|
    ensures Poured(slots, Pour(slots, At(|slots|, base, r - i), batch, i, r), base, batch, i, r)
    decreases r - i
  {
    if i < r {
      var cap := |slots|;
      var e := Back1(cap, At(cap, base, r - i));
      AtBack(cap, base, r - i, e);
      PourIs(slots[e := Full(batch[i])], base, batch, i + 1, r);
    }
  }

  // ---------- when there is room ----------

  /** The rotation moves every newer metric `r` places on; it drops the older ones it meets. */
  lemma {:induction false} TurnMoves<M>(slots: seq<Slot<M>>, rb: nat, newer: seq<M>, free: nat, older: seq<M>,
                                        r: nat, t: nat)
    requires Moved(slots, rb, newer, free, older, r, t) && 0 < r <= free + |older|
    ensures var d, e := |newer|, Max(0, r - free);
      var u := Turn(slots, rb, At(|slots|, rb, d - t), At(|slots|, rb, d - t + r));
      && Moved(u.slots, rb, newer, free, older, r, d) && u.re == At(|slots|, rb, r)
      && u.calls == Backwards(older, e - Min(d, e), e - Min(t, e))
    decreases |newer| - t
  {
    hide Moved, At, Backwards;
    var cap, d, e := |slots|, |newer|, Max(0, r - free);
    MovedFacts(slots, rb, newer, free, older, r, t);
    TurnGuard(cap, rb, d, r, t);
    if t < d {
      var rp, re := Back1(cap, At(cap, rb, d - t)), Back1(cap, At(cap, rb, d - t + r));
      AtBack(cap, rb, d - t, rp);
      AtBack(cap, rb, d - t + r, re);
      MoveOnto(slots, rb, newer, free, older, r, t);
      MoveStep(slots, rb, newer, free, older, r, t);
      DropStep(older, d, e, t);
      TurnMoves(slots[re := slots[rp]][rp := Nil], rb, newer, free, older, r, t + 1);
    } else {
      DropEnd(older, d, e);
    }
  }

  lemma {:induction false} DropStep<M>(older: seq<M>, d: nat, e: nat, t: nat)
    requires t < d && e <= |older|
    ensures var lo := e - Min(d, e);
      Backwards(older, lo, e - Min(t, e)) ==
        (if t < e then [older[e - t - 1]] else []) + Backwards(older, lo, e - Min(t + 1, e))
  {
    var lo := e - Min(d, e);
    if e <= t {
      assert [] + Backwards(older, lo, 0) == Backwards(older, lo, 0);
    }
  }

  lemma {:induction false} DropEnd<M>(older: seq<M>, d: nat, e: nat)
    requires e <= |older|
    ensures Backwards(older, e - Min(d, e), e - Min(d, e)) == []
  {
  }

  lemma MovedFacts<M>(slots: seq<Slot<M>>, rb: nat, newer: seq<M>, free: nat, older: seq<M>, r: nat, t: nat)
    requires Moved(slots, rb, newer, free, older, r, t)
    ensures rb < |slots| && |newer| + free + |older| == |slots| && t <= |newer| && |newer| + r <= |slots|
  {
  }

  lemma TurnGuard(cap: nat, rb: nat, d: nat, r: nat, t: nat)
    requires rb < cap && t <= d && d + r <= cap && 0 < r
    ensures rb == At(cap, rb, d - t) || At(cap, rb, d - t) == At(cap, rb, d - t + r) <==> t == d
    ensures At(cap, rb, 0) == rb && (t == d ==> At(cap, rb, d - t + r) == At(cap, rb, r))
  {
  }

  /** With room for all of them, the ring stores what is put back and what makes no way for it. */
  lemma FitOutcome<M>(slots: seq<Slot<M>>, rb: nat, newer: seq<M>, free: nat, older: seq<M>, batch: seq<M>, r: nat)
    requires Laid(slots, rb, newer, free, older) && r <= free + |older| && r <= |batch|
    ensures var cap, d, e := |slots|, |newer|, Max(0, r - free);
      var u := Turn(slots, rb, At(cap, rb, d), At(cap, rb, d + r));
      && u.calls == Backwards(older, e - Min(d, e), e)
      && Stores(Pour(u.slots, u.re, batch, 0, r), At(cap, rb, d + Max(free, r)), Kept(newer, free, older, batch, r))
  {
    hide Laid, Backwards, Turn, Pour, At, Stores, Refilled, Kept, Max;
    LaidFacts(slots, rb, newer, free, older);
    FitRefills(slots, rb, newer, free, older, batch, r);
    var u := Turn(slots, rb, At(|slots|, rb, |newer|), At(|slots|, rb, |newer| + r));
    RefillEnd(Pour(u.slots, u.re, batch, 0, r), rb, newer, free, older, batch, r);
  }

  lemma FitRefills<M>(slots: seq<Slot<M>>, rb: nat, newer: seq<M>, free: nat, older: seq<M>, batch: seq<M>, r: nat)
    requires Laid(slots, rb, newer, free, older) && r <= free + |older| && r <= |batch|
    ensures var cap, d, e := |slots|, |newer|, Max(0, r - free);
      var u := Turn(slots, rb, At(cap, rb, d), At(cap, rb, d + r));
      && u.calls == Backwards(older, e - Min(d, e), e)
      && Refilled(Pour(u.slots, u.re, batch, 0, r), rb, newer, free, older, batch, r, r)
  {
    hide Laid, Moved, Backwards, Turn, Pour, At, Refilled;
    var cap, d := |slots|, |newer|;
    LaidFacts(slots, rb, newer, free, older);
    MoveStart(slots, rb, newer, free, older, r);
    if r == 0 {
      NoneToFit(slots, rb, newer, free, older, batch);
    } else {
      TurnMoves(slots, rb, newer, free, older, r, 0);
      PourRefills(Turn(slots, rb, At(cap, rb, d), At(cap, rb, d + r)).slots, rb, newer, free, older, batch, r);
    }
  }

  lemma NoneToFit<M>(slots: seq<Slot<M>>, rb: nat, newer: seq<M>, free: nat, older: seq<M>, batch: seq<M>)
    requires Moved(slots, rb, newer, free, older, 0, 0)
    ensures var u := Turn(slots, rb, At(|slots|, rb, |newer|), At(|slots|, rb, |newer|));
      && u.calls == [] == Backwards(older, 0, 0)
      && Refilled(Pour(u.slots, u.re, batch, 0, 0), rb, newer, free, older, batch, 0, 0)
  {
    hide Moved, Backwards, Turn, Pour, At, Refilled;
    MovedFacts(slots, rb, newer, free, older, 0, 0);
    MoveNowhere(slots, rb, newer, free, older);
    TurnNowhere(slots, rb, At(|slots|, rb, |newer|), batch);
    NoRefill(slots, rb, newer, free, older, batch);
    NoneBackwards(older);
  }

  lemma TurnNowhere<M>(slots: seq<Slot<M>>, rb: nat, rp: nat, batch: seq<M>)
    requires rb < |slots| && rp < |slots|
    ensures Turn(slots, rb, rp, rp) == Turned(slots, [], rp) && Pour(slots, rp, batch, 0, 0) == slots
  {
  }

  lemma NoneBackwards<M>(s: seq<M>)
    ensures Backwards(s, 0, 0) == []
  {
  }

  lemma LaidFacts<M>(slots: seq<Slot<M>>, rb: nat, newer: seq<M>, free: nat, older: seq<M>)
    requires Laid(slots, rb, newer, free, older)
    ensures rb < |slots| && |newer| + free + |older| == |slots|
  {
  }

  lemma NoRefill<M>(slots: seq<Slot<M>>, rb: nat, newer: seq<M>, free: nat, older: seq<M>, batch: seq<M>)
    requires Moved(slots, rb, newer, free, older, 0, |newer|)
    ensures Refilled(slots, rb, newer, free, older, batch, 0, 0)
  {
  }

  lemma PourRefills<M>(slots: seq<Slot<M>>, rb: nat, newer: seq<M>, free: nat, older: seq<M>, batch: seq<M>, r: nat)
    requires Moved(slots, rb, newer, free, older, r, |newer|) && r <= |batch|
    ensures Refilled(Pour(slots, At(|slots|, rb, r), batch, 0, r), rb, newer, free, older, batch, r, r)
  {
    hide Pour, At, Moved, Refilled, Poured;
    MovedFacts(slots, rb, newer, free, older, r, |newer|);
    PourIs(slots, rb, batch, 0, r);
    PouredRefills(slots, Pour(slots, At(|slots|, rb, r), batch, 0, r), rb, newer, free, older, batch, r);
  }

  lemma PouredRefills<M>(slots: seq<Slot<M>>, s: seq<Slot<M>>, rb: nat, newer: seq<M>, free: nat, older: seq<M>,
                         batch: seq<M>, r: nat)
    requires Moved(slots, rb, newer, free, older, r, |newer|) && Poured(slots, s, rb, batch, 0, r)
    ensures Refilled(s, rb, newer, free, older, batch, r, r)
  {
    hide At;
  }

  // ---------- when there is not ----------

  /** Every slot is full, seen from `rb`. */
  ghost predicate AllFull<M>(slots: seq<Slot<M>>, rb: nat, ring: seq<M>) {
    && rb < |slots| == |ring|
    && forall j {:trigger At(|slots|, rb, j)} :: 0 <= j < |slots| ==> slots[At(|slots|, rb, j)] == Full(ring[j])
  }

  /** A full ring can be read from any index. */
  lemma ReadFrom<M>(slots: seq<Slot<M>>, rb: nat, ring: seq<M>, k: nat)
    requires AllFull(slots, rb, ring) && k <= |slots|
    ensures Stores(slots, At(|slots|, rb, k), ring[k..] + ring[..k])
  {
    var cap := |slots|;
    forall j | 0 <= j < cap
      ensures At(cap, At(cap, rb, k), j) == At(cap, rb, if k + j < cap then k + j else k + j - cap)
    {
      AtAt(cap, rb, k, j);
    }
  }

  /** If everything stored is newer, the rotation stops at once and the batch goes over the oldest. */
  lemma FullOutcome<M>(slots: seq<Slot<M>>, rb: nat, newer: seq<M>, batch: seq<M>, r: nat)
    requires Laid(slots, rb, newer, 0, []) && r <= |slots| && r <= |batch|
    ensures var cap := |slots|;
      var u := Turn(slots, rb, At(cap, rb, cap), At(cap, rb, r));
      && u.calls == [] && u.re == At(cap, rb, r)
      && Stores(Pour(u.slots, u.re, batch, 0, r), At(cap, rb, r), newer[r..] + Reverse(batch[..r]))
  {
    hide Pour, At, Stores, Poured, AllFull, Laid;
    var cap := |slots|;
    LaidFacts(slots, rb, newer, 0, []);
    AtLap(cap, rb);
    PourIs(slots, rb, batch, 0, r);
    var s := Pour(slots, At(cap, rb, r), batch, 0, r);
    var ring := Reverse(batch[..r]) + newer[r..];
    PouredOver(slots, s, rb, newer, batch, r);
    ReadFrom(s, rb, ring, r);
    assert ring[r..] + ring[..r] == newer[r..] + Reverse(batch[..r]);
  }

  lemma PouredOver<M>(slots: seq<Slot<M>>, s: seq<Slot<M>>, rb: nat, newer: seq<M>, batch: seq<M>, r: nat)
    requires Laid(slots, rb, newer, 0, []) && Poured(slots, s, rb, batch, 0, r)
    ensures AllFull(s, rb, Reverse(batch[..r]) + newer[r..])
  {
    hide At;
  }

  /** If the batch fills the whole ring, the rotation stops at once and everything is overwritten. */
  lemma WholeOutcome<M>(slots: seq<Slot<M>>, rb: nat, last: nat, batch: seq<M>)
    requires rb < |slots| && last < |slots| <= |batch|
    ensures var cap := |slots|;
      var u := Turn(slots, rb, last, last);
      && u.calls == [] && u.re == last
      && Stores(Pour(u.slots, u.re, batch, 0, cap), last, Reverse(batch[..cap]))
  {
    hide Pour, At, Stores, Poured, Reverse;
    var cap := |slots|;
    AtLap(cap, last);
    PourIs(slots, last, batch, 0, cap);
    PouredWhole(slots, Pour(slots, last, batch, 0, cap), last, batch);
  }

  lemma PouredWhole<M>(slots: seq<Slot<M>>, s: seq<Slot<M>>, rb: nat, batch: seq<M>)
    requires |slots| <= |batch| && Poured(slots, s, rb, batch, 0, |slots|)
    ensures Stores(s, rb, Reverse(batch[..|slots|]))
  {
    hide At;
  }

  lemma AtLap(cap: nat, base: nat)
    requires base < cap
    ensures At(cap, base, cap) == base == At(cap, base, 0)
  {
  }

  /** The highest of the indexes `p`, `p + c`, `p + 2 * c`, ... below `d`. */
  function Top(d: nat, c: nat, p: nat): (i: nat)
    requires 0 < c && p < d
    ensures p <= i < d
    decreases d - p
  {
    if p + c < d then Top(d, c, p + c) else p
  }

  lemma {:induction false} TopPlus(d: nat, c: nat, p: nat, k: nat)
    requires 0 < c && p + c * k < d
    ensures p < d && Top(d, c, p) == Top(d, c, p + c * k)
  {
    if 0 < k {
      assert c * k == c * (k - 1) + c && 0 <= c * (k - 1);
      TopPlus(d, c, p, k - 1);
    }
  }

  /** Which metric of the newest `c` ends up where. */
  lemma TopIs<M>(newer: seq<M>, c: nat, p: nat)
    requires p < c <= |newer|
    ensures newer[Top(|newer|, c, p)] == Wrapped(newer, c)[p]
  {
    var d, q, k := |newer|, |newer| % c, |newer| / c;
    assert d == c * k + q;
    assert 0 < k by {
      assert k == 0 ==> c * k == 0;
    }
    if p < q {
      TopPlus(d, c, p, k);
    } else {
      assert c * k == c * (k - 1) + c;
      TopPlus(d, c, p, k - 1);
    }
  }

  /**
    A rotation that catches up with itself, with `q` of the newer metrics left to move: the
    moves go `c` places back, onto newer metrics, until they wrap.
  */
  ghost predicate Wrapping<M>(slots: seq<Slot<M>>, rb: nat, newer: seq<M>, free: nat, older: seq<M>, r: nat, q: nat) {
    var cap, d := |slots|, |newer|;
    && rb < cap && d + free + |older| == cap && 0 < r < cap < d + r && q <= d < cap
    && forall j {:trigger At(|slots|, rb, j)} :: 0 <= j < cap ==>
      slots[At(cap, rb, j)] == (
        if j < q then Full(newer[if j + (cap - r) < q then j else Top(d, cap - r, j)])
        else if r + q <= j then Full(newer[Top(d, cap - r, j - r)])
        else if j < d + free then Nil
        else Full(older[j - d - free]))
  }

  lemma WrapStart<M>(slots: seq<Slot<M>>, rb: nat, newer: seq<M>, free: nat, older: seq<M>, r: nat)
    requires Laid(slots, rb, newer, free, older) && 0 < r < |slots| < |newer| + r && |newer| < |slots|
    ensures Wrapping(slots, rb, newer, free, older, r, |newer|)
  {
  }

  /** Where the move of the metric at `q - 1` goes, counted from `rb`. */
  function WrapsTo(cap: nat, r: nat, q: nat): (j: nat)
    requires 0 < q && r <= cap && q <= cap
  {
    if q - 1 + r < cap then q - 1 + r else q - 1 + r - cap
  }

  lemma WrapOnto<M>(slots: seq<Slot<M>>, rb: nat, newer: seq<M>, free: nat, older: seq<M>, r: nat, q: nat)
    requires Wrapping(slots, rb, newer, free, older, r, q) && 0 < q
    ensures var cap, d, j := |slots|, |newer|, WrapsTo(|slots|, r, q);
      && slots[At(cap, rb, q - 1)] == Full(newer[Top(d, cap - r, q - 1)])
      && slots[At(cap, rb, j)] ==
        if cap - r < q then Full(newer[q - 1 - (cap - r)])
        else if j < d + free then Nil else Full(older[j - d - free])
  {
  }

  lemma WrapStep<M>(slots: seq<Slot<M>>, rb: nat, newer: seq<M>, free: nat, older: seq<M>, r: nat, q: nat)
    requires Wrapping(slots, rb, newer, free, older, r, q) && 0 < q
    ensures var cap := |slots|;
      var p, e := At(cap, rb, q - 1), At(cap, rb, WrapsTo(cap, r, q));
      Wrapping(slots[e := slots[p]][p := Nil], rb, newer, free, older, r, q - 1)
  {
    hide Top;
    var cap, c, d := |slots|, |slots| - r, |newer|;
    if c < q {
      TopStep(d, c, q - 1 - c);
    }
  }

  lemma TopStep(d: nat, c: nat, p: nat)
    requires 0 < c && p + c < d
    ensures Top(d, c, p) == Top(d, c, p + c)
  {
  }

  /** What is dropped from there on: first newer metrics, then older ones. */
  ghost function WrapCalls<M>(newer: seq<M>, free: nat, older: seq<M>, cap: nat, r: nat, q: nat): seq<M>
    requires |newer| + free + |older| == cap && r <= cap && q <= |newer|
  {
    var d, c := |newer|, cap - r;
    var lo := Max(0, r - d - free);
    Backwards(newer, 0, Max(0, q - c)) + Backwards(older, lo, Max(lo, Min(q, c) + r - d - free))
  }

  lemma WrapCallsStep<M>(newer: seq<M>, free: nat, older: seq<M>, cap: nat, r: nat, q: nat)
    requires |newer| + free + |older| == cap && 0 < r < cap < |newer| + r && 0 < q <= |newer|
    ensures var d, c, j := |newer|, cap - r, WrapsTo(cap, r, q);
      WrapCalls(newer, free, older, cap, r, q) ==
        (if c < q then [newer[q - 1 - c]] else if j < d + free then [] else [older[j - d - free]])
        + WrapCalls(newer, free, older, cap, r, q - 1)
  {
    var d, c, lo := |newer|, cap - r, Max(0, r - |newer| - free);
    if c < q {
      Associate([newer[q - 1 - c]], Backwards(newer, 0, q - 1 - c), Backwards(older, lo, Max(lo, c + r - d - free)));
    } else {
      NoneBackwards(newer);
    }
  }

  lemma WrapCallsEnd<M>(newer: seq<M>, free: nat, older: seq<M>, cap: nat, r: nat)
    requires |newer| + free + |older| == cap && 0 < r < cap
    ensures WrapCalls(newer, free, older, cap, r, 0) == []
  {
  }

  lemma {:induction false} TurnWraps<M>(slots: seq<Slot<M>>, rb: nat, newer: seq<M>, free: nat, older: seq<M>,
                                        r: nat, q: nat)
    requires Wrapping(slots, rb, newer, free, older, r, q)
    ensures var cap := |slots|;
      var u := Turn(slots, rb, At(cap, rb, q), At(cap, At(cap, rb, q), r));
      && Wrapping(u.slots, rb, newer, free, older, r, 0) && u.re == At(cap, rb, r)
      && u.calls == WrapCalls(newer, free, older, cap, r, q)
    decreases q
  {
    hide Wrapping, WrapCalls;
    WrapFacts(slots, rb, newer, free, older, r, q);
    var cap, rp := |slots|, At(|slots|, rb, q);
    WrapGuard(cap, rb, r, q);
    if q == 0 {
      WrapCallsEnd(newer, free, older, cap, r);
    } else {
      var p, e := Back1(cap, rp), Back1(cap, At(cap, rp, r));
      WrapOnto(slots, rb, newer, free, older, r, q);
      WrapStep(slots, rb, newer, free, older, r, q);
      WrapCallsStep(newer, free, older, cap, r, q);
      TurnWraps(slots[e := slots[p]][p := Nil], rb, newer, free, older, r, q - 1);
    }
  }

  lemma WrapFacts<M>(slots: seq<Slot<M>>, rb: nat, newer: seq<M>, free: nat, older: seq<M>, r: nat, q: nat)
    requires Wrapping(slots, rb, newer, free, older, r, q)
    ensures rb < |slots| && |newer| + free + |older| == |slots|
    ensures 0 < r < |slots| < |newer| + r && q <= |newer| < |slots|
  {
  }

  lemma WrapGuard(cap: nat, rb: nat, r: nat, q: nat)
    requires rb < cap && 0 < r < cap && q < cap
    ensures var rp := At(cap, rb, q);
      && (rb == rp || rp == At(cap, rp, r) <==> q == 0)
      && At(cap, rb, 0) == rb
      && (0 < q ==>
           && Back1(cap, rp) == At(cap, rb, q - 1)
           && Back1(cap, At(cap, rp, r)) == At(cap, rb, WrapsTo(cap, r, q)) == At(cap, At(cap, rb, q - 1), r))
  {
  }

  /** The ring after a rotation that caught up with itself: the batch and the newest metrics. */
  lemma WrapOutcome<M>(slots: seq<Slot<M>>, rb: nat, newer: seq<M>, free: nat, older: seq<M>, batch: seq<M>, r: nat)
    requires Laid(slots, rb, newer, free, older) && r <= |batch|
    requires 0 < r < |slots| < |newer| + r && |newer| < |slots|
    ensures var cap, d, c := |slots|, |newer|, |slots| - r;
      var ring := Reverse(batch[..r]) + Wrapped(newer, c);
      var u := Turn(slots, rb, At(cap, rb, d), At(cap, At(cap, rb, d), r));
      && u.calls == WrapCalls(newer, free, older, cap, r, d)
      && Stores(Pour(u.slots, u.re, batch, 0, r), At(cap, rb, d - c), ring[d - c..] + ring[..d - c])
  {
    hide Laid, Turn, Pour, Wrapped, WrapCalls, Top, Stores;
    var cap, d, c := |slots|, |newer|, |slots| - r;
    WrapStart(slots, rb, newer, free, older, r);
    TurnWraps(slots, rb, newer, free, older, r, d);
    var u := Turn(slots, rb, At(cap, rb, d), At(cap, At(cap, rb, d), r));
    PourIs(u.slots, rb, batch, 0, r);
    var s := Pour(u.slots, u.re, batch, 0, r);
    var ring := Reverse(batch[..r]) + Wrapped(newer, c);
    forall j | 0 <= j < cap ensures s[At(cap, rb, j)] == Full(ring[j]) {
      if r <= j {
        TopIs(newer, c, j - r);
      }
    }
    ReadFrom(s, rb, ring, d - c);
  }

  // ---------- what `Reject` does ----------

  /**
    The loops of `Reject` on a ring that stores `stored` from `oldest` on, with the batch window
    `o` metrics into it: what is stored then and where it starts, and the Reject() calls made.
  */
  ghost predicate Outcome<M>(slots: seq<Slot<M>>, oldest: nat, stored: seq<M>, batch: seq<M>, o: nat, r: nat)
    requires oldest < |slots| && o <= |stored| <= |slots| && r <= |batch| && r <= |slots|
  {
    var cap, b := |slots|, PutBack(|slots|, stored, batch, o, r);
    var last := At(cap, oldest, |stored|);
    var u := Turn(slots, At(cap, oldest, o), last, At(cap, last, r));
    var k := |u.calls| + |b.gone|;
    && u.calls + batch[r..] == b.calls
    && k <= cap && Stores(Pour(u.slots, u.re, batch, 0, r), At(cap, oldest, k), b.stored)
    && At(cap, last, r) == At(cap, At(cap, oldest, k), |b.stored|)
  }

  lemma RejectOutcome<M>(slots: seq<Slot<M>>, oldest: nat, stored: seq<M>, batch: seq<M>, o: nat, r: nat)
    requires oldest < |slots| && |stored| <= |slots| && Stores(slots, oldest, stored)
    requires o <= |stored| && o < |slots| && r <= |batch| && r <= |slots|
    ensures Outcome(slots, oldest, stored, batch, o, r)
  {
    hide Stores, Outcome, At;
    var cap, d := |slots|, |stored| - o;
    if d + r <= cap {
      FitBack(slots, oldest, stored, batch, o, r);
    } else if d == cap {
      FullBack(slots, oldest, stored, batch, r);
    } else if r == cap {
      WholeBack(slots, oldest, stored, batch, o);
    } else {
      WrapBack(slots, oldest, stored, batch, o, r);
    }
  }

  /** What the fields say when a batch comes back: whether the buffer was overrun, and how many metrics go back. */
  lemma FieldsSay<M>(l: Ledger<M>, oldest: nat, first: nat, batchFirst: nat, batchSize: nat)
    requires WellFormed(l) && l.lent != [] && oldest < l.cap && first < l.cap && Lap(l.cap, first, |l.lost|) == oldest
    requires Window(l.cap, oldest, |l.stored|, |l.lent|, l.newer, batchFirst, batchSize)
    ensures batchFirst < l.cap && batchFirst == At(l.cap, oldest, Ahead(l))
    ensures Overrun(l) <==> batchSize == 0 && oldest != batchFirst
    ensures GoesBack(l) == Min(|l.lent|, l.cap - |l.stored| + Between(l.cap, first, batchFirst))
  {
    hide At, Lap, Window, Overrun, Ahead;
    WindowBound(l, oldest, batchFirst, batchSize);
    BetweenAt(l.cap, oldest, batchFirst);
    BetweenAt(l.cap, first, batchFirst);
    WindowDist(l, oldest, batchFirst, batchSize, Between(l.cap, oldest, batchFirst));
    LaggingDist(l.cap, first, |l.lost|, Ahead(l), Between(l.cap, first, batchFirst));
  }

  /** The loops of `Reject` on a buffer: what it stores then, and where it starts. */
  lemma BackInRing<M>(l: Ledger<M>, slots: seq<Slot<M>>, oldest: nat, first: nat)
    requires WellFormed(l) && l.lent != [] && |slots| == l.cap && oldest < l.cap && first < l.cap
    requires Lap(l.cap, first, |l.lost|) == oldest && Stores(slots, oldest, l.stored)
    ensures var cap, r, b := l.cap, GoesBack(l), Returned(l);
      var last := At(cap, oldest, |l.stored|);
      var u := Turn(slots, At(cap, oldest, Ahead(l)), last, At(cap, last, r));
      var k := |u.calls| + |b.gone|;
      && k <= cap && u.calls + l.lent[r..] == b.calls && |b.calls| == |u.calls| + |l.lent| - r
      && var oldest' := At(cap, oldest, k);
      && Stores(Pour(u.slots, u.re, l.lent, 0, r), oldest', b.stored)
      && |b.stored| == Min(|l.stored| + r, cap)
      && At(cap, last, r) == At(cap, oldest', |b.stored|)
      && Lap(cap, Lap(cap, first, |u.calls|), |l.lost + b.gone|) == oldest'
      && Window(cap, oldest', |b.stored|, 0, 0, 0, 0)
  {
    hide Stores, Turn, Pour, At, Lap, PutBack, Ahead, GoesBack;
    var cap, r, b := l.cap, GoesBack(l), Returned(l);
    RejectOutcome(slots, oldest, l.stored, l.lent, Ahead(l), r);
    var last := At(cap, oldest, |l.stored|);
    var u := Turn(slots, At(cap, oldest, Ahead(l)), last, At(cap, last, r));
    var n, k := |u.calls|, |u.calls| + |b.gone|;
    LapAdd(cap, first, n, |l.lost| + |b.gone|);
    LapAdd(cap, first, |l.lost|, k);
    LapAt(cap, oldest, k);
    assert n + (|l.lost| + |b.gone|) == |l.lost| + k;
  }

  lemma BetweenAt(cap: nat, begin: nat, end: nat)
    requires begin < cap && end < cap
    ensures Between(cap, begin, end) < cap && At(cap, begin, Between(cap, begin, end)) == end
  {
  }

  lemma LapNone(cap: nat, base: nat)
    requires base < cap
    ensures Lap(cap, base, 0) == base
  {
  }

  lemma FitIndexes(cap: nat, oldest: nat, o: nat, d: nat, r: nat)
    requires oldest < cap && o + d <= cap && o < cap && d + r <= cap
    ensures var rb, last, e := At(cap, oldest, o), At(cap, oldest, o + d), Max(0, r - (cap - o - d));
      && At(cap, rb, d) == last && At(cap, last, r) == At(cap, rb, d + r)
      && At(cap, rb, d + Max(cap - o - d, r)) == At(cap, oldest, e)
      && At(cap, last, r) == At(cap, At(cap, oldest, e), Min(o + d + r, cap))
  {
  }

  lemma FitBack<M>(slots: seq<Slot<M>>, oldest: nat, stored: seq<M>, batch: seq<M>, o: nat, r: nat)
    requires oldest < |slots| && |stored| <= |slots| && Stores(slots, oldest, stored)
    requires o <= |stored| && o < |slots| && r <= |batch| && |stored| - o + r <= |slots|
    ensures Outcome(slots, oldest, stored, batch, o, r)
  {
    hide Stores, Laid, Turn, Pour, Backwards, At, Reverse, PutBack, Kept;
    var cap, d, free := |slots|, |stored| - o, |slots| - |stored|;
    var older, newer := stored[..o], stored[o..];
    assert stored == older + newer;
    LayOut(slots, oldest, older, newer);
    FitIndexes(cap, oldest, o, d, r);
    FitOutcome(slots, At(cap, oldest, o), newer, free, older, batch, r);
    FitIs(cap, stored, batch, o, r);
  }

  lemma FitIs<M>(cap: nat, stored: seq<M>, batch: seq<M>, o: nat, r: nat)
    requires o <= |stored| <= cap && r <= |batch| && |stored| - o + r <= cap
    ensures var b, d, e := PutBack(cap, stored, batch, o, r), |stored| - o, Max(0, r - (cap - |stored|));
      var calls := Backwards(stored[..o], e - Min(d, e), e);
      && b.stored == Kept(stored[o..], cap - |stored|, stored[..o], batch, r)
      && b.calls == calls + batch[r..] && |calls| + |b.gone| == e
  {
    hide Backwards, Reverse;
    var older, e := stored[..o], Max(0, r - (cap - |stored|));
    var lo := e - Min(|stored| - o, e);
    BackwardsReverse(older, lo, e);
    BackwardsLength(older, lo, e);
    assert older[lo..e] == stored[lo..e] && older[e..] == stored[e..o];
  }

  lemma FullBack<M>(slots: seq<Slot<M>>, oldest: nat, stored: seq<M>, batch: seq<M>, r: nat)
    requires oldest < |slots| && |stored| <= |slots| && Stores(slots, oldest, stored)
    requires |stored| == |slots| && 0 < r <= |batch| && r <= |slots|
    ensures Outcome(slots, oldest, stored, batch, 0, r)
  {
    hide Stores, Laid, Turn, Pour, At, Reverse;
    var cap := |slots|;
    assert stored == [] + stored;
    LayOut(slots, oldest, [], stored);
    AtLap(cap, oldest);
    FullOutcome(slots, oldest, stored, batch, r);
    AtLap(cap, At(cap, oldest, r));
    assert [] + batch[r..] == batch[r..];
  }

  lemma WholeBack<M>(slots: seq<Slot<M>>, oldest: nat, stored: seq<M>, batch: seq<M>, o: nat)
    requires oldest < |slots| && |stored| <= |slots| && Stores(slots, oldest, stored)
    requires o < |stored| && |stored| - o < |slots| <= |batch|
    ensures Outcome(slots, oldest, stored, batch, o, |slots|)
  {
    hide Stores, Turn, Pour, At, Reverse;
    var cap := |slots|;
    var last := At(cap, oldest, |stored|);
    AtLap(cap, last);
    WholeOutcome(slots, At(cap, oldest, o), last, batch);
    assert [] + batch[cap..] == batch[cap..];
  }

  lemma WrapIndexes(cap: nat, oldest: nat, o: nat, d: nat, r: nat)
    requires oldest < cap && o + d <= cap && o < cap && d < cap && r < cap < d + r
    ensures var rb, last, k := At(cap, oldest, o), At(cap, oldest, o + d), o + d - (cap - r);
      && At(cap, rb, d) == last && At(cap, rb, d - (cap - r)) == At(cap, oldest, k)
      && At(cap, last, r) == At(cap, At(cap, oldest, k), cap)
  {
  }

  lemma WrapBack<M>(slots: seq<Slot<M>>, oldest: nat, stored: seq<M>, batch: seq<M>, o: nat, r: nat)
    requires oldest < |slots| && |stored| <= |slots| && Stores(slots, oldest, stored)
    requires o <= |stored| && o < |slots|
    requires r <= |batch| && |stored| - o < |slots| && 0 < r < |slots| < |stored| - o + r
    ensures Outcome(slots, oldest, stored, batch, o, r)
  {
    hide Stores, Laid, Turn, Pour, Backwards, At, Reverse, Wrapped;
    var cap, d, free := |slots|, |stored| - o, |slots| - |stored|;
    var older, newer, v, c := stored[..o], stored[o..], Max(0, r - d - free), |slots| - r;
    assert stored == older + newer;
    LayOut(slots, oldest, older, newer);
    WrapIndexes(cap, oldest, o, d, r);
    WrapOutcome(slots, At(cap, oldest, o), newer, free, older, batch, r);
    BackwardsReverse(newer, 0, d - c);
    BackwardsReverse(older, v, o);
    BackwardsLength(newer, 0, d - c);
    BackwardsLength(older, v, o);
    assert newer[0..d - c] == newer[..d - c] && older[v..o] == stored[v..o];
  }

  /** A buffer of three, with a batch of two metrics out, after three metrics arrived. */
  lemma FullReached() returns (l: Ledger<nat>)
    ensures l == Ledger(3, [3, 4, 5], [2, 1], 3, [1, 2, 3, 4, 5], [], [], []) && WellFormed(l)
    ensures l == Add(Add(Add(Batch(Add(Add(Empty(3), 1), 2), 2), 3), 4), 5)
  {
    l := BatchReached();
    l := Next(l, 3, Ledger(3, [3], [2, 1], 1, [1, 2, 3], [], [], []));
    l := Next(l, 4, Ledger(3, [3, 4], [2, 1], 2, [1, 2, 3, 4], [], [], []));
    l := Next(l, 5, Ledger(3, [3, 4, 5], [2, 1], 3, [1, 2, 3, 4, 5], [], [], []));
  }

  /** The same after six metrics arrived. */
  lemma OverrunReached() returns (l: Ledger<nat>)
    ensures l == Ledger(3, [6, 7, 8], [2, 1], 6, [1, 2, 3, 4, 5, 6, 7, 8], [], [3, 4, 5], []) && WellFormed(l)
    ensures l == Add(Add(Add(Add(Add(Add(Batch(Add(Add(Empty(3), 1), 2), 2), 3), 4), 5), 6), 7), 8)
  {
    l := FullReached();
    l := Next(l, 6, Ledger(3, [4, 5, 6], [2, 1], 4, [1, 2, 3, 4, 5, 6], [], [3], []));
    l := Next(l, 7, Ledger(3, [5, 6, 7], [2, 1], 5, [1, 2, 3, 4, 5, 6, 7], [], [3, 4], []));
    l := Next(l, 8, Ledger(3, [6, 7, 8], [2, 1], 6, [1, 2, 3, 4, 5, 6, 7, 8], [], [3, 4, 5], []));
  }

  lemma BatchReached() returns (l: Ledger<nat>)
    ensures l == Ledger(3, [], [2, 1], 0, [1, 2], [], [], []) && WellFormed(l)
    ensures l == Batch(Add(Add(Empty(3), 1), 2), 2)
  {
    l := Empty(3);
    l := Next(l, 1, Ledger(3, [1], [], 0, [1], [], [], []));
    l := Next(l, 2, Ledger(3, [1, 2], [], 0, [1, 2], [], [], []));
    BatchCases(l, 2);
    l := Batch(l, 2);
  }

  /**
    An overrun that loses a metric: in the state above the batch is put back over
    metrics 6 and 7, and only 7 is rejected; 6 is neither stored, accepted nor rejected.
  */
  lemma OverrunExample() returns (l: Ledger<nat>)
    ensures l == Add(Add(Add(Add(Add(Add(Batch(Add(Add(Empty(3), 1), 2), 2), 3), 4), 5), 6), 7), 8)
    ensures WellFormed(l) && Overrun(l)
    ensures TakeBack(l) == Ledger(3, [1, 2, 8], [], 0, [1, 2, 3, 4, 5, 6, 7, 8], [], [3, 4, 5, 7], [6])
  {
    hide Add, Batch;
    l := OverrunReached();
    assert Ahead(l) == 2 && Guess(l) == 2 && GoesBack(l) == 2;
    assert l.lent[..2] == [2, 1] && Reverse([2, 1]) == [1, 2] && Reverse([7]) == [7];
    assert l.stored[1..2] == [7] && l.stored[..1] == [6] && l.stored[2..] == [8] && l.stored[2..2] == [];
    assert [3, 4, 5] + ([7] + []) == [3, 4, 5, 7];
  }

  /**
    And then, without an overrun, another one: the whole buffer is lent out, metric 9 arrives,
    and the batch that comes back goes straight over it.
  */
  lemma SecondLoss() returns (l: Ledger<nat>, back: Ledger<nat>, out: Ledger<nat>)
    ensures l == Add(Add(Add(Add(Add(Add(Batch(Add(Add(Empty(3), 1), 2), 2), 3), 4), 5), 6), 7), 8)
    ensures WellFormed(l) && back == TakeBack(l)
    ensures WellFormed(Batch(back, 3)) && out == Add(Batch(back, 3), 9) && WellFormed(out)
    ensures !Overrun(out) && TakeBack(out).stored == [1, 2, 8] && TakeBack(out).lost == [6, 9]
    ensures Reject(out).stored == [2, 8, 9]
  {
    hide TakeBack, Add, Batch, Reject, Overrun;
    l := OverrunExample();
    back := TakeBack(l);
    SecondLossAfter(back);
    out := Add(Batch(back, 3), 9);
  }

  lemma SecondLossAfter(l: Ledger<nat>)
    requires l == Ledger(3, [1, 2, 8], [], 0, [1, 2, 3, 4, 5, 6, 7, 8], [], [3, 4, 5, 7], [6])
    ensures WellFormed(l) && WellFormed(Batch(l, 3)) && WellFormed(Add(Batch(l, 3), 9))
    ensures var out := Add(Batch(l, 3), 9);
      && !Overrun(out) && TakeBack(out).stored == [1, 2, 8] && TakeBack(out).lost == [6, 9]
      && Reject(out).stored == [2, 8, 9]
  {
    BatchCases(l, 3);
    assert Batch(l, 3).stored == [] && Batch(l, 3).lent == [8, 2, 1];
    AddCases(Batch(l, 3), 9);
    var out := Add(Batch(l, 3), 9);
    assert out.stored == [9] && out.lent == [8, 2, 1] && out.newer == 1;
    assert Ahead(out) == 0 && Guess(out) == 1 && GoesBack(out) == 3;
    assert out.lent[..3] == [8, 2, 1] && Reverse([8, 2, 1]) == [1, 2, 8];
    assert Restored(out) == [1, 2, 8, 9];
  }

  lemma Next(l: Ledger<nat>, m: nat, l': Ledger<nat>) returns (r: Ledger<nat>)
    requires WellFormed(l) && l'.cap == l.cap && l'.lent == l.lent && l'.accepted == l.accepted && l'.lost == l.lost
    requires l'.newer == (if l.lent == [] then 0 else l.newer + 1) && l'.added == l.added + [m]
    requires |l.stored| < l.cap ==> l'.stored == l.stored + [m] && l'.rejected == l.rejected
    requires |l.stored| == l.cap ==> l'.stored == l.stored[1..] + [m] && l'.rejected == l.rejected + [l.stored[0]]
    ensures r == l' == Add(l, m) && WellFormed(r)
  {
    AddCases(l, m);
    r := l';
  }
}
