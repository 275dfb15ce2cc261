/** The circular buffer of `internal/models/buffer.go`, updated in place. */
module RingBuffer {
  import opened Seqs
  import opened BufferSpec
  import opened Ring

  /** The selfstat counters of a buffer; `size` is the buffer_size gauge. */
  datatype Stats = Stats(added: nat, written: nat, dropped: nat, size: nat)

  class Buffer<M> {
    const cap: nat                 // the capacity of the buffer
    const buf: array<Slot<M>>
    var first: nat                 // index of the oldest metric, unless metrics were lost
    var last: nat                  // one after the index of the newest metric
    var size: nat                  // number of metrics in the buffer
    var batchFirst: nat            // index of the first metric in the batch
    var batchSize: nat             // number of metrics in the batch not overwritten yet
    var stats: Stats

    /** What the buffer stands for, with every Accept() and Reject() call made on a metric. */
    ghost var ledger: Ledger<M>

    /** Where the oldest metric is: `first` falls one behind with each metric that is lost. */
    ghost var oldest: nat

    ghost predicate Shape()
      reads this, buf
    {
      && 1 <= cap == buf.Length
      && first < cap && oldest < cap && size <= cap && size == |ledger.stored|
      && Stores(buf[..], oldest, ledger.stored)
      && last == At(cap, oldest, size)
      && Lap(cap, first, |ledger.lost|) == oldest
    }

    ghost predicate Booked()
      reads this
    {
      && ledger.cap == cap
      && WellFormed(ledger)
      && stats.added == |ledger.added|
      && stats.written == |ledger.accepted|
      && stats.dropped == |ledger.rejected|
    }

    ghost predicate Windowed()
      reads this
    {
      && oldest < cap && size <= cap
      && Window(cap, oldest, size, |ledger.lent|, ledger.newer, batchFirst, batchSize)
    }

    ghost predicate Valid()
      reads this, buf
    {
      Shape() && Booked() && Windowed() && stats.size == Min(size + batchSize, cap)
    }

    constructor (capacity: nat)
      requires 1 <= capacity
      ensures Valid() && fresh(buf)
      ensures cap == capacity && ledger == Empty(capacity)
    {
      cap := capacity;
      buf := new Slot<M>[capacity](_ => Nil);
      first, last, size := 0, 0, 0;
      batchFirst, batchSize := 0, 0;
      stats := Stats(0, 0, 0, 0);
      ledger := Empty(capacity);
      oldest := 0;
    }

    function Length(): nat
      reads this
    {
      Min(size + batchSize, cap)
    }

    /** The number of metrics stored or lent out, up to the capacity. */
    method Len() returns (n: nat)
      requires Valid()
      ensures n == Min(|ledger.stored| + |ledger.lent|, cap)
      ensures n == stats.size
    {
      n := Length();
    }

    function Next(index: nat): (i: nat)
      requires index < cap
      ensures i == At(cap, index, 1)
    {
      if index + 1 == cap then 0 else index + 1
    }

    function Prev(index: nat): (i: nat)
      requires index < cap
      ensures i == Back1(cap, index)
    {
      if index == 0 then cap - 1 else index - 1
    }

    function NextBy(index: nat, count: nat): (i: nat)
      requires index < cap
      ensures count <= cap ==> i == At(cap, index, count)
    {
      ModOnce(cap, index + count);
      (index + count) % cap
    }

    function Dist(begin: nat, end: nat): (d: nat)
      requires begin < cap && end < cap
      ensures d < cap && d == Between(cap, begin, end)
    {
      if begin <= end then end - begin else cap - begin + end
    }

    method ResetBatch()
      modifies this`batchFirst, this`batchSize
      ensures batchFirst == 0 && batchSize == 0
    {
      batchFirst := 0;
      batchSize := 0;
    }

    method MetricWritten(m: M)
      modifies this`stats, this`ledger
      ensures stats == old(stats).(written := old(stats.written) + 1)
      ensures ledger == old(ledger).(accepted := old(ledger).accepted + [m])
    {
      stats := stats.(written := stats.written + 1);
      ledger := ledger.(accepted := ledger.accepted + [m]);
    }

    method MetricDropped(m: M)
      modifies this`stats, this`ledger
      ensures stats == old(stats).(dropped := old(stats.dropped) + 1)
      ensures ledger == old(ledger).(rejected := old(ledger).rejected + [m])
    {
      stats := stats.(dropped := stats.dropped + 1);
      ledger := ledger.(rejected := ledger.rejected + [m]);
    }

    /** Make room in a full buffer: drop the oldest metric, and take it off the batch window. */
    method Evict()
      requires Shape() && size == cap && 0 < |ledger.stored|
      modifies this`stats, this`ledger, this`batchSize, this`batchFirst
      ensures Shape()
      ensures stats == old(stats).(dropped := old(stats.dropped) + 1)
      ensures ledger == old(ledger).(rejected := old(ledger).rejected + [old(ledger).stored[0]])
      ensures var hit := oldest == old(batchFirst) && 0 < old(batchSize);
        && batchFirst == (if hit then At(cap, oldest, 1) else old(batchFirst))
        && batchSize == (if hit then old(batchSize) - 1 else old(batchSize))
    {
      StoreFull(buf[..], oldest, ledger.stored, ledger.stored[0]);
      MetricDropped(buf[last].metric);
      if last == batchFirst && batchSize > 0 {
        batchSize := batchSize - 1;
        batchFirst := Next(batchFirst);
      }
    }

    /** Write a metric at the end of the ring and move the ends on. */
    method Store(m: M)
      requires Shape()
      modifies this`last, this`first, this`size, this`ledger, this`oldest, buf
      ensures Shape()
      ensures ledger == old(ledger).(stored := Newest(cap, old(ledger).stored + [m]))
      ensures oldest == if old(size) == cap then At(cap, old(oldest), 1) else old(oldest)
      ensures size == Min(old(size) + 1, cap)
    {
      ghost var slots := buf[..];
      if size == cap {
        StoreFull(slots, oldest, ledger.stored, m);
      } else {
        StoreRoom(slots, oldest, ledger.stored, m);
      }
      buf[last] := Full(m);
      assert buf[..] == slots[last := Full(m)];
      last := Next(last);
      if size == cap {
        LapNext(cap, first, |ledger.lost|);
        first := Next(first);
        oldest := Next(oldest);
      }
      size := Min(size + 1, cap);
      ledger := ledger.(stored := Newest(cap, ledger.stored + [m]));
    }

    /** `Put`, saying where each index goes. */
    method PutRaw(m: M) returns (dropped: nat)
      requires Shape() && Booked()
      modifies this, buf
      ensures Shape() && Booked()
      ensures stats.size == old(stats.size)
      ensures ledger == BufferSpec.Add(old(ledger), m)
      ensures dropped == |ledger.rejected| - |old(ledger).rejected|
      ensures oldest == if old(size) == cap then At(cap, old(oldest), 1) else old(oldest)
      ensures size == Min(old(size) + 1, cap)
      ensures var hit := old(size) == cap && old(oldest) == old(batchFirst) && 0 < old(batchSize);
        && batchFirst == (if hit then At(cap, old(oldest), 1) else old(batchFirst))
        && batchSize == (if hit then old(batchSize) - 1 else old(batchSize))
    {
      hide Stores, At, WellFormed, Newest, Oldest;
      ghost var l := ledger;
      AddCases(ledger, m);
      AddStored(ledger, m);
      dropped := 0;
      if size == cap {
        Evict();
        dropped := dropped + 1;
      }
      stats := stats.(added := stats.added + 1);
      ledger := ledger.(added := l.added + [m], newer := if l.lent == [] then 0 else l.newer + 1);
      Store(m);
    }

    /** Add one metric, dropping the oldest when the buffer is full. */
    method Put(m: M) returns (dropped: nat)
      requires Shape() && Booked() && Windowed()
      modifies this, buf
      ensures Shape() && Booked() && Windowed()
      ensures stats.size == old(stats.size)
      ensures ledger == BufferSpec.Add(old(ledger), m)
      ensures dropped == |ledger.rejected| - |old(ledger).rejected|
    {
      WindowPut(cap, oldest, size, |ledger.lent|, ledger.newer, batchFirst, batchSize);
      dropped := PutRaw(m);
    }

    /** Add metrics in order; the result is how many metrics were dropped for them. */
    method Add(metrics: seq<M>) returns (dropped: nat)
      requires Valid()
      modifies this, buf
      ensures Valid()
      ensures ledger == AddAll(old(ledger), metrics)
      ensures dropped == |ledger.rejected| - |old(ledger).rejected|
    {
      dropped := 0;
      for i := 0 to |metrics|
        invariant Shape() && Booked() && Windowed()
        invariant ledger == AddAll(old(ledger), metrics[..i])
        invariant dropped == |ledger.rejected| - |old(ledger).rejected|
      {
        AddAllStep(old(ledger), metrics, i);
        var n := Put(metrics[i]);
        dropped := dropped + n;
      }
      assert metrics[..|metrics|] == metrics;
      stats := stats.(size := Length());
    }

    /** Take the metric at `index` out of its slot. */
    method TakeSlot(index: nat, ghost s: seq<M>, ghost lo: nat, ghost hi: nat) returns (m: M)
      requires cap == buf.Length && oldest < cap
      requires Lending(buf[..], oldest, s, lo, hi) && hi < |s| && index == At(cap, oldest, hi)
      modifies buf
      ensures Lending(buf[..], oldest, s, lo, hi + 1)
      ensures m == s[hi]
    {
      ghost var slots := buf[..];
      LendStep(slots, oldest, s, lo, hi);
      m := buf[index].metric;
      buf[index] := Nil;
      assert buf[..] == slots[index := Nil];
    }

    /** Take the newest `n` metrics out of their slots. */
    method TakeOut(n: nat) returns (out: seq<M>)
      requires Shape() && n <= size && batchFirst == At(cap, oldest, size - n)
      modifies buf
      ensures Stores(buf[..], oldest, ledger.stored[..size - n])
      ensures out == Backwards(ledger.stored, size - n, size)
    {
      var batchIndex := batchFirst;
      ghost var s, lo := ledger.stored, size - n;
      out := [];
      LendStart(buf[..], oldest, s, lo);
      for i := 0 to n
        invariant batchIndex == At(cap, oldest, lo + i)
        invariant Lending(buf[..], oldest, s, lo, lo + i)
        invariant out == Backwards(s, lo, lo + i)
      {
        var m := TakeSlot(batchIndex, s, lo, lo + i);
        out := [m] + out;
        batchIndex := Next(batchIndex);
      }
      LendEnd(buf[..], oldest, s, lo);
    }

    /** Lend out up to `n` of the most recently added metrics, newest first. */
    method Batch(n: nat) returns (out: seq<M>)
      requires Valid() && ledger.lent == []
      modifies this, buf
      ensures Valid()
      ensures ledger == BufferSpec.Batch(old(ledger), n)
      ensures out == ledger.lent
    {
      hide Stores, Reverse, Backwards;
      BatchCases(ledger, n);
      var outLen := Min(size, n);
      BackwardsReverse(ledger.stored, size - outLen, size);
      if outLen == 0 {
        return [];
      }
      BatchIndex(cap, oldest, size, outLen);
      batchFirst := (cap + last - outLen) % cap;
      batchSize := outLen;
      out := TakeOut(outLen);
      last := batchFirst;
      size := size - outLen;
      ledger := BufferSpec.Batch(ledger, n);
    }

    /** The batch was written: every metric in it is accepted. */
    method Accept(batch: seq<M>)
      requires Valid() && batch == ledger.lent
      modifies this
      ensures Valid()
      ensures ledger == BufferSpec.Accept(old(ledger))
    {
      ghost var l := ledger;
      for i := 0 to |batch|
        modifies this`stats, this`ledger
        invariant stats == old(stats).(written := old(stats.written) + i)
        invariant ledger == l.(accepted := l.accepted + batch[..i])
      {
        MetricWritten(batch[i]);
        assert batch[..i + 1] == batch[..i] + [batch[i]];
      }
      assert batch[..|batch|] == batch;
      ResetBatch();
      ledger := ledger.(lent := [], newer := 0);
      stats := stats.(size := Length());
    }

    /** One step of the rotation: move the metric at `rp` to `re`, dropping one found there. */
    method MoveOne(rp: nat, re: nat) returns (ghost call: seq<M>)
      requires cap == buf.Length && first < cap && rp < cap && re < cap
      modifies buf, this`first, this`stats, this`ledger
      ensures var slots := old(buf[..]);
        && buf[..] == slots[re := slots[rp]][rp := Nil]
        && call == if slots[re].Full? then [slots[re].metric] else []
      ensures first == Lap(cap, old(first), |call|)
      ensures stats == old(stats).(dropped := old(stats.dropped) + |call|)
      ensures ledger == old(ledger).(rejected := old(ledger).rejected + call)
    {
      call := [];
      if buf[re].Full? {
        call := [buf[re].metric];
        MetricDropped(buf[re].metric);
        LapAt(cap, first, 1);
        first := Next(first);
      }
      buf[re] := buf[rp];
      buf[rp] := Nil;
    }

    /** Rotate the newer metrics forward by the number of metrics to restore. */
    method Rotate(rb: nat, restore: nat) returns (re: nat, ghost calls: seq<M>)
      requires cap == buf.Length && rb < cap && first < cap && last < cap && restore <= cap
      modifies buf, this`first, this`last, this`stats, this`ledger
      ensures last == At(cap, old(last), restore)
      ensures Turned(buf[..], calls, re) == Turn(old(buf[..]), rb, old(last), last)
      ensures first == Lap(cap, old(first), |calls|)
      ensures stats == old(stats).(dropped := old(stats.dropped) + |calls|)
      ensures ledger == old(ledger).(rejected := old(ledger).rejected + calls)
    {
      hide At, Lap, Turn, Back1, Between;
      var rp: nat := last;
      re := NextBy(rp, restore);
      last := re;
      calls := [];
      LapNone(cap, first);
      ghost var end := Turn(buf[..], rb, rp, re);
      while rb != rp && rp != re
        modifies buf, this`first, this`stats, this`ledger
        invariant rp < cap && re < cap && first < cap
        invariant var rest := Turn(buf[..], rb, rp, re); end == rest.(calls := calls + rest.calls)
        invariant first == Lap(cap, old(first), |calls|)
        invariant stats == old(stats).(dropped := old(stats.dropped) + |calls|)
        invariant ledger == old(ledger).(rejected := old(ledger).rejected + calls)
        decreases Between(cap, rb, rp)
      {
        TurnStep(buf[..], rb, rp, re);
        rp := Prev(rp);
        re := Prev(re);
        ghost var call := MoveOne(rp, re);
        Associate(calls, call, Turn(buf[..], rb, rp, re).calls);
        Associate(old(ledger).rejected, calls, call);
        LapAdd(cap, old(first), |calls|, |call|);
        calls := calls + call;
      }
      TurnStep(buf[..], rb, rp, re);
    }

    /** Copy what fits of the batch back into the slots before `re0`, and drop the rest of it. */
    method Refill(re0: nat, batch: seq<M>, r: nat)
      requires cap == buf.Length && re0 < cap && r <= |batch| && size <= cap
      modifies buf, this`size, this`stats, this`ledger
      ensures buf[..] == Pour(old(buf[..]), re0, batch, 0, r)
      ensures size == Min(old(size) + r, cap)
      ensures stats == old(stats).(dropped := old(stats.dropped) + |batch| - r)
      ensures ledger == old(ledger).(rejected := old(ledger).rejected + batch[r..])
    {
      var re: nat := re0;
      ghost var end := Pour(buf[..], re, batch, 0, r);
      for i := 0 to |batch|
        invariant re < cap && end == Pour(buf[..], re, batch, Min(i, r), r)
        invariant size == Min(old(size) + Min(i, r), cap)
        invariant stats == old(stats).(dropped := old(stats.dropped) + i - Min(i, r))
        invariant ledger == old(ledger).(rejected := old(ledger).rejected + batch[Min(i, r)..i])
      {
        if i < r {
          re := RestoreOne(re, batch[i]);
        } else {
          MetricDropped(batch[i]);
        }
      }
    }

    /** Copy a metric of the batch back, just before `re`. */
    method RestoreOne(re: nat, m: M) returns (re': nat)
      requires cap == buf.Length && re < cap
      modifies buf, this`size
      ensures re' == Back1(cap, re) && buf[..] == old(buf[..])[re' := Full(m)]
      ensures size == Min(old(size) + 1, cap)
    {
      re' := Prev(re);
      buf[re'] := Full(m);
      size := Min(size + 1, cap);
    }

    /** `Reject`, saying where each slot and index goes. */
    method RejectRaw(batch: seq<M>) returns (ghost calls: seq<M>)
      requires cap == buf.Length && first < cap && last < cap && size <= cap && batchFirst < cap && |batch| <= cap
      modifies this, buf
      ensures var r := Min(|batch|, cap - old(size) + Between(cap, old(first), old(batchFirst)));
        var u := Turn(old(buf[..]), old(batchFirst), old(last), At(cap, old(last), r));
        && calls == u.calls
        && buf[..] == Pour(u.slots, u.re, batch, 0, r)
        && last == At(cap, old(last), r) && size == Min(old(size) + r, cap)
        && first == Lap(cap, old(first), |calls|)
        && ledger == old(ledger).(rejected := old(ledger).rejected + (calls + batch[r..]))
        && stats == old(stats).(dropped := old(stats.dropped) + |calls| + |batch| - r, size := size)
      ensures batchFirst == 0 && batchSize == 0 && oldest == old(oldest)
    {
      hide At, Lap, Turn, Pour;
      var dist := Dist(first, batchFirst);
      var free := cap - size;
      var restore := Min(|batch|, free + dist);
      var re;
      re, calls := Rotate(batchFirst, restore);
      Refill(re, batch, restore);
      ResetBatch();
      stats := stats.(size := Length());
      Associate(old(ledger).rejected, calls, batch[restore..]);
    }

    /**
      Take the batch back. The buffer then holds what `TakeBack` says, which is what was
      promised exactly if as many metrics are put back as should be: the newest `cap` of the
      older metrics, the batch and the newer metrics, in that order, with each metric left
      out rejected once. How many are put back, and whether the buffer was overrun while the
      batch was out, shows in the fields.
    */
    method Reject(batch: seq<M>)
      requires Valid() && batch == ledger.lent
      modifies this, buf
      ensures Valid() && ledger == TakeBack(old(ledger))
      ensures batch != [] ==>
        && (Overrun(old(ledger)) <==> old(batchSize) == 0 && old(oldest) != old(batchFirst))
        && GoesBack(old(ledger)) == Min(|batch|, cap - old(size) + old(Dist(first, batchFirst)))
        && (GoesBack(old(ledger)) == Restore(old(ledger)) ==> ledger == BufferSpec.Reject(old(ledger)))
      ensures batch != [] && (forall i :: 0 <= i < |batch| ==> batch[i] !in old(ledger).stored) ==>
        (ledger.stored == BufferSpec.Reject(old(ledger)).stored <==> GoesBack(old(ledger)) == Restore(old(ledger)))
    {
      hide At, Lap, Stores, Turn, Pour, Between, Window;
      hide WellFormed, Overrun, Restore, Returned, GoesBack, BufferSpec.Reject;
      ghost var l := ledger;
      if batch == [] {
        return;
      }
      FieldsSay(l, oldest, first, batchFirst, batchSize);
      BackInRing(l, buf[..], oldest, first);
      ghost var calls := RejectRaw(batch);
      ledger := ledger.(stored := Returned(l).stored, lent := [], newer := 0, lost := l.lost + Returned(l).gone);
      oldest := At(cap, oldest, |calls| + |Returned(l).gone|);
      assert ledger == TakeBack(l);
      if GoesBack(l) == Restore(l) {
        RightNumberIsRight(l);
      } else if forall i :: 0 <= i < |batch| ==> batch[i] !in l.stored {
        WrongNumberIsWrong(l);
      }
    }
  }
}
