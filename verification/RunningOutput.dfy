/** The write loop of `internal/models/running_output.go` over the ring buffer. */
module RunningOutput {
  import opened Seqs
  import opened BufferSpec
  import opened RingBuffer

  /**
    What the rest of the agent does around one turn of the loop: metrics added before
    the batch is taken and while it is being written, and whether the write succeeds.
  */
  datatype Round<M> = Round(before: seq<M>, during: seq<M>, ok: bool)

  datatype Status = Sent | Failed

  /** How a `Write` ends: the buffer, its status, and the number of calls to the output. */
  datatype Outcome<M> = Outcome(ledger: Ledger<M>, status: Status, writes: nat)

  /** Turns `i` to `turns` of the write loop. */
  function WriteFrom<M>(l: Ledger<M>, size: nat, env: nat -> Round<M>, i: nat, turns: nat): (r: Outcome<M>)
    requires WellFormed(l) && l.lent == [] && i <= turns
    ensures WellFormed(r.ledger) && r.ledger.cap == l.cap && r.ledger.lent == []
    ensures r.writes <= turns - i && (r.status == Failed ==> 0 < r.writes)
    decreases turns - i
  {
    if i == turns then
      Outcome(l, Sent, 0)
    else
      var batched := Batch(AddAll(l, env(i).before), size);
      if batched.lent == [] then
        Outcome(batched, Sent, 0)
      else
        var written := AddAll(batched, env(i).during);
        if !env(i).ok then
          Outcome(TakeBack(written), Failed, 1)
        else
          var rest := WriteFrom(Accept(written), size, env, i + 1, turns);
          rest.(writes := rest.writes + 1)
  }

  function Turns(l: Ledger, size: nat): nat
    requires 0 < size
  {
    |l.stored| / size + 1
  }

  function WriteSpec<M>(l: Ledger<M>, size: nat, env: nat -> Round<M>): Outcome<M>
    requires WellFormed(l) && l.lent == [] && 0 < size
  {
    WriteFrom(l, size, env, 0, Turns(l, size))
  }

  /** Nothing is added while the loop runs. */
  ghost predicate Quiet<M>(env: nat -> Round<M>) {
    forall i :: env(i).before == [] && env(i).during == []
  }

  /** Taking a batch and giving it back at once changes nothing. */
  lemma RejectUndoesBatch<M>(l: Ledger<M>, n: nat)
    requires WellFormed(l) && l.lent == []
    ensures WellFormed(Batch(l, n)) && Reject(Batch(l, n)) == l
  {
    var b := Batch(l, n);
    ReverseReverse(Newest(n, l.stored));
    assert Restored(b) == l.stored;
  }

  /** Taking a batch and having it written moves the newest metrics to the accepted ones. */
  lemma AcceptAfterBatch<M>(l: Ledger<M>, n: nat)
    requires WellFormed(l) && l.lent == []
    ensures Accept(Batch(l, n)) ==
      l.(stored := Oldest(n, l.stored), accepted := l.accepted + Reverse(Newest(n, l.stored)))
  {
  }

  /** Two batches in a row give the newest metrics, newest first, like one larger batch. */
  lemma BatchesJoin<M>(s: seq<M>, a: nat, b: nat)
    ensures Oldest(b, Oldest(a, s)) == Oldest(a + b, s)
    ensures Reverse(Newest(a, s)) + Reverse(Newest(b, Oldest(a, s))) == Reverse(Newest(a + b, s))
  {
  }

  /** After `k` written batches: the newest `k * size` metrics are accepted, the others stay. */
  function AfterBatches<M>(l: Ledger<M>, size: nat, k: nat): Ledger<M> {
    l.(stored := Oldest(k * size, l.stored), accepted := l.accepted + Reverse(Newest(k * size, l.stored)))
  }

  lemma AfterOneMore<M>(l: Ledger<M>, size: nat, k: nat)
    requires WellFormed(l) && l.lent == [] && 0 < k
    ensures AfterBatches(Accept(Batch(l, size)), size, k - 1) == AfterBatches(l, size, k)
  {
    hide Reverse, Newest, Oldest, Batch, WellFormed;
    AcceptAfterBatch(l, size);
    var n := (k - 1) * size;
    assert k * size == size + n;
    BatchesJoin(l.stored, size, n);
    Associate(l.accepted, Reverse(Newest(size, l.stored)), Reverse(Newest(n, Oldest(size, l.stored))));
  }

  /** One turn of the loop with no metrics arriving. */
  lemma QuietTurn<M>(l: Ledger<M>, size: nat, env: nat -> Round<M>, i: nat, turns: nat)
    requires WellFormed(l) && l.lent == [] && 0 < size && l.stored != []
    requires env(i).before == [] && env(i).during == [] && i < turns
    ensures var l' := Accept(Batch(l, size));
      && WellFormed(l') && l'.lent == [] && |l'.stored| == Max(0, |l.stored| - size)
      && WriteFrom(l, size, env, i, turns) ==
        if env(i).ok then
          var rest := WriteFrom(l', size, env, i + 1, turns);
          rest.(writes := rest.writes + 1)
        else
          Outcome(l, Failed, 1)
  {
    RejectUndoesBatch(l, size);
    BatchCases(l, size);
    RightNumberIsRight(Batch(l, size));
  }

  /**
    With no metrics arriving, a loop whose writes succeed for `k` turns and then fail
    leaves the buffer as it was, minus the newest `k` batches, which are accepted.
  */
  lemma {:induction false} FailureKeepsTheRest<M>(l: Ledger<M>, size: nat, env: nat -> Round<M>, i: nat, k: nat,
                                                  turns: nat)
    requires WellFormed(l) && l.lent == [] && 0 < size
    requires Quiet(env) && i + k < turns && k * size < |l.stored|
    requires (forall j :: i <= j < i + k ==> env(j).ok) && !env(i + k).ok
    ensures WriteFrom(l, size, env, i, turns) == Outcome(AfterBatches(l, size, k), Failed, k + 1)
    decreases k
  {
    hide WriteFrom, Batch;
    QuietTurn(l, size, env, i, turns);
    if k == 0 {
      assert AfterBatches(l, size, 0) == l;
    } else {
      assert k * size == size + (k - 1) * size;
      assert 0 <= (k - 1) * size;
      AfterOneMore(l, size, k);
      hide AfterBatches;
      FailureKeepsTheRest(Accept(Batch(l, size)), size, env, i + 1, k - 1, turns);
    }
  }

  /**
    With no metrics arriving and every write succeeding, the loop empties the buffer and
    accepts each stored metric once, newest first, in as few writes as possible.
  */
  lemma {:induction false} SuccessEmpties<M>(l: Ledger<M>, size: nat, env: nat -> Round<M>, i: nat, turns: nat)
    requires WellFormed(l) && l.lent == [] && 0 < size
    requires Quiet(env) && (forall j :: env(j).ok)
    requires i <= turns && |l.stored| <= (turns - i) * size
    ensures var r := WriteFrom(l, size, env, i, turns);
      && r.status == Sent
      && r.ledger == l.(stored := [], accepted := l.accepted + Reverse(l.stored))
      && (r.writes - 1) * size < |l.stored| <= r.writes * size
    decreases turns - i
  {
    hide WriteFrom, Batch, Reverse, WellFormed, Newest;
    if |l.stored| == 0 {
      QuietEnd(l, size, env, i, turns);
    } else {
      QuietTurn(l, size, env, i, turns);
      AcceptAfterBatch(l, size);
      assert (turns - i) * size == size + (turns - i - 1) * size;
      var l' := Accept(Batch(l, size));
      SuccessEmpties(l', size, env, i + 1, turns);
      AllJoin(l, size);
      CountStep(size, |l.stored|, WriteFrom(l', size, env, i + 1, turns).writes);
    }
  }

  lemma CountStep(size: nat, n: nat, w: nat)
    requires 0 < size && 0 < n && (w - 1) * size < Max(0, n - size) <= w * size
    ensures w * size < n <= (w + 1) * size
  {
    assert (w + 1) * size == size + w * size && w * size == size + (w - 1) * size;
    if 0 < w {
      assert 0 <= (w - 1) * size;
    }
  }

  lemma QuietEnd<M>(l: Ledger<M>, size: nat, env: nat -> Round<M>, i: nat, turns: nat)
    requires WellFormed(l) && l.lent == [] && l.stored == []
    requires i <= turns && (i < turns ==> env(i).before == [])
    ensures WriteFrom(l, size, env, i, turns) == Outcome(l, Sent, 0)
    ensures l == l.(stored := [], accepted := l.accepted + Reverse(l.stored))
  {
    hide TakeBack;
    BatchCases(l, size);
  }

  lemma AllJoin<M>(l: Ledger<M>, size: nat)
    ensures l.accepted + Reverse(Newest(size, l.stored)) + Reverse(Oldest(size, l.stored)) ==
      l.accepted + Reverse(l.stored)
  {
    BatchesJoin(l.stored, size, |l.stored|);
  }

  /** A whole `Write` without interference, successful throughout. */
  lemma WriteEmpties<M>(l: Ledger<M>, size: nat, env: nat -> Round<M>)
    requires WellFormed(l) && l.lent == [] && 0 < size
    requires Quiet(env) && (forall j :: env(j).ok)
    ensures var r := WriteSpec(l, size, env);
      && r.status == Sent
      && r.ledger == l.(stored := [], accepted := l.accepted + Reverse(l.stored))
      && (r.writes - 1) * size < |l.stored| <= r.writes * size
  {
    var n := |l.stored|;
    assert n == n / size * size + n % size;
    assert (n / size + 1) * size == n / size * size + size;
    SuccessEmpties(l, size, env, 0, Turns(l, size));
  }

  // ---------- arrivals ----------

  lemma {:induction false} AddAllNewer<M>(l: Ledger<M>, ms: seq<M>)
    requires WellFormed(l)
    ensures AddAll(l, ms).newer <= l.newer + |ms|
  {
    if ms != [] {
      AddAllNewer(l, ms[..|ms| - 1]);
    }
  }

  /** The buffer when the batch of a turn has been handed to the output. */
  function Written<M>(l: Ledger<M>, size: nat, round: Round<M>): (r: Ledger<M>)
    requires WellFormed(l) && l.lent == []
    ensures WellFormed(r) && r.cap == l.cap && r.lost == l.lost && r.newer <= |round.during|
  {
    var batched := Batch(AddAll(l, round.before), size);
    AddAllNewer(batched, round.during);
    AddAll(batched, round.during)
  }

  /** The buffer after a turn that wrote its batch. */
  function After<M>(l: Ledger<M>, size: nat, round: Round<M>): (r: Ledger<M>)
    requires WellFormed(l) && l.lent == []
    ensures WellFormed(r) && r.lent == [] && r.cap == l.cap && r.lost == l.lost
  {
    Accept(Written(l, size, round))
  }

  /** The buffer at the start of turn `i`, if turns `j` to `i` write their batches. */
  function AtTurn<M>(l: Ledger<M>, size: nat, env: nat -> Round<M>, j: nat, i: nat): (r: Ledger<M>)
    requires WellFormed(l) && l.lent == [] && j <= i
    ensures WellFormed(r) && r.lent == [] && r.cap == l.cap && r.lost == l.lost
    decreases i - j
  {
    if i == j then l else AtTurn(After(l, size, env(j)), size, env, j + 1, i)
  }

  /** A loop that writes a batch in turn `i` gets there. */
  lemma {:induction false} GetsThere<M>(l: Ledger<M>, size: nat, env: nat -> Round<M>, j: nat, i: nat, turns: nat)
    requires WellFormed(l) && l.lent == [] && j <= i && j <= turns
    requires i - j < WriteFrom(l, size, env, j, turns).writes
    ensures i < turns
    ensures WriteFrom(l, size, env, j, turns).ledger ==
      WriteFrom(AtTurn(l, size, env, j, i), size, env, i, turns).ledger
    ensures 0 < WriteFrom(AtTurn(l, size, env, j, i), size, env, i, turns).writes
    decreases i - j
  {
    hide Batch, AddAll, Accept, TakeBack, WellFormed;
    if j < i {
      GetsThere(After(l, size, env(j)), size, env, j + 1, i, turns);
    }
  }

  lemma {:induction false} AddAllSubset<M>(l: Ledger<M>, ms: seq<M>, m: M)
    requires WellFormed(l) && m !in l.stored && m !in ms
    ensures m !in AddAll(l, ms).stored && AddAll(l, ms).accepted == l.accepted
  {
    if ms != [] {
      AddAllSubset(l, ms[..|ms| - 1], m);
    }
  }

  /** A metric that is neither stored nor arrives is not written. */
  lemma NotWritten<M>(l: Ledger<M>, size: nat, round: Round<M>, m: M)
    requires WellFormed(l) && l.lent == [] && m !in l.stored && m !in l.accepted && m !in round.before
    ensures m !in After(l, size, round).accepted
    ensures m !in round.during ==> m !in After(l, size, round).stored
  {
    AddAllSubset(l, round.before, m);
    var added := AddAll(l, round.before);
    BatchCases(added, size);
    var batched := Batch(added, size);
    assert forall x :: x in batched.stored || x in batched.lent ==> x in added.stored;
    AddAllAccepted(batched, round.during);
    if m !in round.during {
      AddAllSubset(batched, round.during, m);
    }
  }

  /** The metric arrives during the write of turn `i`, before `k` others, and at no other time. */
  ghost predicate ArrivesIn<M>(env: nat -> Round<M>, i: nat, k: nat, m: M) {
    && OnceAt(env(i).during, m, k)
    && forall j: nat :: m !in env(j).before && (j != i ==> m !in env(j).during)
  }

  /** The metric is `d` places before the last one, and nowhere else. */
  ghost predicate OnceAt<M>(s: seq<M>, m: M, d: nat) {
    && d < |s| && s[|s| - 1 - d] == m
    && forall p :: 0 <= p < |s| && p != |s| - 1 - d ==> s[p] != m
  }

  lemma {:induction false} NotYet<M>(l: Ledger<M>, size: nat, env: nat -> Round<M>, j: nat, i: nat, k: nat, m: M)
    requires WellFormed(l) && l.lent == [] && j <= i && m !in l.stored && m !in l.accepted
    requires ArrivesIn(env, i, k, m)
    ensures m !in AtTurn(l, size, env, j, i).stored && m !in AtTurn(l, size, env, j, i).accepted
    decreases i - j
  {
    hide After, WellFormed;
    if j < i {
      NotWritten(l, size, env(j), m);
      NotYet(After(l, size, env(j)), size, env, j + 1, i, k, m);
    }
  }

  /** `d` metrics that came later are stored, unless that is more than the buffer can hold beside this one. */
  ghost predicate Depth<M>(l: Ledger<M>, m: M, d: nat) {
    if d < l.cap then OnceAt(l.stored, m, d) else m !in l.stored
  }

  lemma Sinks<M>(l: Ledger<M>, x: M, m: M, d: nat)
    requires WellFormed(l) && Depth(l, m, d) && x != m
    ensures Depth(Add(l, x), m, d + 1)
  {
    AddCases(l, x);
  }

  lemma {:induction false} SinksAll<M>(l: Ledger<M>, ms: seq<M>, m: M, d: nat)
    requires WellFormed(l) && Depth(l, m, d) && m !in ms
    ensures Depth(AddAll(l, ms), m, d + |ms|)
  {
    hide Depth, Add;
    if ms != [] {
      SinksAll(l, ms[..|ms| - 1], m, d);
      Sinks(AddAll(l, ms[..|ms| - 1]), ms[|ms| - 1], m, d + |ms| - 1);
    }
  }

  lemma {:induction false} SinksAfterArrival<M>(l: Ledger<M>, ms: seq<M>, m: M, k: nat)
    requires WellFormed(l) && m !in l.stored && OnceAt(ms, m, k)
    ensures Depth(AddAll(l, ms), m, k)
    decreases k
  {
    var rest := ms[..|ms| - 1];
    if k == 0 {
      AddAllSubset(l, rest, m);
      AddCases(AddAll(l, rest), m);
    } else {
      SinksAfterArrival(l, rest, m, k - 1);
      Sinks(AddAll(l, rest), ms[|ms| - 1], m, k - 1);
    }
  }

  /** A batch takes the metric if fewer came later than go into the batch. */
  lemma BatchTakes<M>(l: Ledger<M>, size: nat, m: M, d: nat)
    requires WellFormed(l) && l.lent == [] && Depth(l, m, d) && d < l.cap
    ensures var b := Batch(l, size);
      if d < size then d < |b.lent| && b.lent[d] == m else |b.lent| == size && m !in b.lent && Depth(b, m, d - size)
  {
    BatchCases(l, size);
  }

  /**
    Whether a metric that `d` others follow goes out in one of the turns `j` to `turns`: as the
    newest go first, it waits until fewer than a batch follow it, and until then each turn has
    to succeed, and never may as many follow it as the buffer holds.
  */
  predicate GoesOut<M>(env: nat -> Round<M>, size: nat, cap: nat, d: nat, j: nat, turns: nat)
    requires j <= turns
    decreases turns - j
  {
    && j < turns && env(j).ok && d + |env(j).before| < cap
    && var e := d + |env(j).before|;
    (e < size || GoesOut(env, size, cap, e - size + |env(j).during|, j + 1, turns))
  }

  lemma {:induction false} NeverOut<M>(l: Ledger<M>, size: nat, env: nat -> Round<M>, j: nat, turns: nat, m: M)
    requires WellFormed(l) && l.lent == [] && j <= turns && m !in l.stored && m !in l.accepted
    requires forall t: nat :: j <= t ==> m !in env(t).before && m !in env(t).during
    ensures m !in WriteFrom(l, size, env, j, turns).ledger.accepted
    decreases turns - j
  {
    hide After, WellFormed;
    if j < turns {
      AddAllAccepted(l, env(j).before);
      if Batch(AddAll(l, env(j).before), size).lent != [] {
        if env(j).ok {
          NotWritten(l, size, env(j), m);
          NeverOut(After(l, size, env(j)), size, env, j + 1, turns, m);
          WriteTurn(l, size, env, j, turns);
        } else {
          FailedTurn(l, size, env, j, turns);
        }
      }
    }
  }

  lemma {:induction false} AcceptedGrows<M>(l: Ledger<M>, size: nat, env: nat -> Round<M>, i: nat, turns: nat)
    requires WellFormed(l) && l.lent == [] && i <= turns
    ensures l.accepted <= WriteFrom(l, size, env, i, turns).ledger.accepted
    decreases turns - i
  {
    if i < turns {
      var batched := Batch(AddAll(l, env(i).before), size);
      AddAllAccepted(l, env(i).before);
      if batched.lent != [] {
        AddAllAccepted(batched, env(i).during);
        if env(i).ok {
          AcceptedGrows(After(l, size, env(i)), size, env, i + 1, turns);
        }
      }
    }
  }

  lemma {:induction false} AddAllAccepted<M>(l: Ledger<M>, ms: seq<M>)
    requires WellFormed(l)
    ensures AddAll(l, ms).accepted == l.accepted
  {
    if ms != [] {
      AddAllAccepted(l, ms[..|ms| - 1]);
    }
  }

  lemma WriteTurn<M>(l: Ledger<M>, size: nat, env: nat -> Round<M>, i: nat, turns: nat)
    requires WellFormed(l) && l.lent == [] && i < turns && env(i).ok
    requires Batch(AddAll(l, env(i).before), size).lent != []
    ensures WriteFrom(l, size, env, i, turns).ledger ==
      WriteFrom(After(l, size, env(i)), size, env, i + 1, turns).ledger
  {
  }

  lemma FailedTurn<M>(l: Ledger<M>, size: nat, env: nat -> Round<M>, i: nat, turns: nat)
    requires WellFormed(l) && l.lent == [] && i < turns && !env(i).ok
    ensures WriteFrom(l, size, env, i, turns).ledger.accepted == l.accepted
  {
    AddAllAccepted(l, env(i).before);
    AddAllAccepted(Batch(AddAll(l, env(i).before), size), env(i).during);
  }

  lemma AfterAccepts<M>(l: Ledger<M>, size: nat, round: Round<M>)
    requires WellFormed(l) && l.lent == []
    ensures After(l, size, round).accepted == l.accepted + Batch(AddAll(l, round.before), size).lent
  {
    hide Reverse, Newest, Oldest;
    AddAllAccepted(l, round.before);
    BatchCases(AddAll(l, round.before), size);
    AddAllAccepted(Batch(AddAll(l, round.before), size), round.during);
  }

  /** A turn that writes the metric, which `d` others follow when the turn starts. */
  lemma TurnTakes<M>(l: Ledger<M>, size: nat, env: nat -> Round<M>, j: nat, turns: nat, m: M, d: nat)
    requires WellFormed(l) && l.lent == [] && j < turns && env(j).ok
    requires Depth(l, m, d) && m !in env(j).before && d + |env(j).before| < Min(size, l.cap)
    ensures var a, p := WriteFrom(l, size, env, j, turns).ledger.accepted, |l.accepted| + d + |env(j).before|;
      p < |a| && a[p] == m
  {
    hide WriteFrom, Depth, Batch, After, AddAll, WellFormed;
    var added := AddAll(l, env(j).before);
    SinksAll(l, env(j).before, m, d);
    BatchTakes(added, size, m, d + |env(j).before|);
    AfterAccepts(l, size, env(j));
    WriteTurn(l, size, env, j, turns);
    AcceptedGrows(After(l, size, env(j)), size, env, j + 1, turns);
  }

  /** A turn that succeeds and does not write the metric. */
  lemma TurnPasses<M>(l: Ledger<M>, size: nat, round: Round<M>, m: M, d: nat)
    requires WellFormed(l) && l.lent == [] && 0 < size && m !in l.accepted && m !in round.before && m !in round.during
    requires Depth(l, m, d) && size <= d + |round.before| < l.cap
    ensures Batch(AddAll(l, round.before), size).lent != []
    ensures var l' := After(l, size, round);
      m !in l'.accepted && Depth(l', m, d + |round.before| - size + |round.during|)
  {
    hide AddAll, Batch, Depth, WellFormed;
    var added := AddAll(l, round.before);
    SinksAll(l, round.before, m, d);
    BatchTakes(added, size, m, d + |round.before|);
    BatchCases(added, size);
    BatchStarts(added, size);
    AfterAccepts(l, size, round);
    SinksAll(Batch(added, size), round.during, m, d + |round.before| - size);
    DepthAccept(Written(l, size, round), m, d + |round.before| - size + |round.during|);
  }

  lemma DepthAccept<M>(l: Ledger<M>, m: M, d: nat)
    requires Depth(l, m, d)
    ensures Depth(Accept(l), m, d)
  {
  }

  lemma {:induction false} GoesOutExactly<M>(l: Ledger<M>, size: nat, env: nat -> Round<M>, j: nat, turns: nat, m: M,
                                             d: nat)
    requires WellFormed(l) && l.lent == [] && 0 < size && j <= turns && m !in l.accepted && Depth(l, m, d)
    requires forall t: nat :: j <= t ==> m !in env(t).before && m !in env(t).during
    ensures m in WriteFrom(l, size, env, j, turns).ledger.accepted <==> GoesOut(env, size, l.cap, d, j, turns)
    decreases turns - j
  {
    hide WriteFrom, Depth, After, WellFormed;
    if j == turns {
      LastTurn(l, size, env, turns);
    } else if !env(j).ok {
      FailedTurn(l, size, env, j, turns);
    } else if d + |env(j).before| >= l.cap {
      DroppedBefore(l, size, env, j, turns, m, d);
    } else if d + |env(j).before| < size {
      TurnTakes(l, size, env, j, turns, m, d);
    } else {
      TurnPasses(l, size, env(j), m, d);
      WriteTurn(l, size, env, j, turns);
      GoesOutExactly(After(l, size, env(j)), size, env, j + 1, turns, m, d + |env(j).before| - size + |env(j).during|);
    }
  }

  /** A metric that is dropped before the batch is taken is not written. */
  lemma DroppedBefore<M>(l: Ledger<M>, size: nat, env: nat -> Round<M>, j: nat, turns: nat, m: M, d: nat)
    requires WellFormed(l) && l.lent == [] && 0 < size && j < turns && m !in l.accepted && Depth(l, m, d)
    requires forall t: nat :: j <= t ==> m !in env(t).before && m !in env(t).during
    requires l.cap <= d + |env(j).before|
    ensures m !in WriteFrom(l, size, env, j, turns).ledger.accepted
  {
    SinksAll(l, env(j).before, m, d);
    AddAllAccepted(l, env(j).before);
    var added := AddAll(l, env(j).before);
    var env' := (t: nat) => if t == j then env(j).(before := []) else env(t);
    SameTurn(l, size, env, env', j, turns);
    NeverOut(added, size, env', j, turns, m);
  }

  /**
    Exactly when a metric that arrives while the batch of turn `i` is written goes out with the
    same `Write`, contrary to what the comment promises. If it goes out in the next turn, its
    place in that batch is where the metrics that came later leave it.
  */
  lemma ArrivalsGoFirst<M>(l: Ledger<M>, size: nat, env: nat -> Round<M>, i: nat, k: nat, m: M)
    requires WellFormed(l) && l.lent == [] && 0 < size && m !in l.stored && m !in l.accepted
    requires i < WriteSpec(l, size, env).writes && ArrivesIn(env, i, k, m)
    ensures i + 1 <= Turns(l, size)
    ensures var end, turns := WriteSpec(l, size, env).ledger.accepted, Turns(l, size);
      && (m in end <==> env(i).ok && GoesOut(env, size, l.cap, k, i + 1, turns))
      && var p := |AtTurn(l, size, env, 0, i + 1).accepted| + k + |env(i + 1).before|;
      (m in end && k + |env(i + 1).before| < size ==> p < |end| && end[p] == m)
  {
    hide WriteFrom, After, WellFormed, Depth, GoesOut;
    var turns := Turns(l, size);
    GetsThere(l, size, env, 0, i, turns);
    var at := AtTurn(l, size, env, 0, i);
    NotYet(l, size, env, 0, i, k, m);
    if !env(i).ok {
      FailedTurn(at, size, env, i, turns);
    } else {
      TurnWrites(at, size, env, i, turns);
      WriteTurn(at, size, env, i, turns);
      OneTurnOn(l, size, env, 0, i);
      var next := After(at, size, env(i));
      NotWritten(at, size, env(i), m);
      Arrived(at, size, env(i), m, k);
      GoesOutExactly(next, size, env, i + 1, turns, m, k);
      if m in WriteSpec(l, size, env).ledger.accepted && k + |env(i + 1).before| < size {
        GoesOutNow(env, size, l.cap, k, i + 1, turns);
        TurnTakes(next, size, env, i + 1, turns, m, k);
      }
    }
  }

  lemma GoesOutNow<M>(env: nat -> Round<M>, size: nat, cap: nat, d: nat, j: nat, turns: nat)
    requires j <= turns && GoesOut(env, size, cap, d, j, turns)
    ensures j < turns && env(j).ok && d + |env(j).before| < cap
  {
  }

  lemma Arrived<M>(l: Ledger<M>, size: nat, round: Round<M>, m: M, k: nat)
    requires WellFormed(l) && l.lent == [] && m !in l.stored && m !in round.before && OnceAt(round.during, m, k)
    ensures After(l, size, round).cap == l.cap && Depth(After(l, size, round), m, k)
  {
    var added := AddAll(l, round.before);
    AddAllSubset(l, round.before, m);
    BatchCases(added, size);
    assert forall x :: x in Batch(added, size).stored ==> x in added.stored;
    SinksAfterArrival(Batch(added, size), round.during, m, k);
  }

  /** The same if nothing arrives after turn `i`: the metric goes out in turn `i + 1 + k / size`. */
  lemma ArrivalTurn<M>(l: Ledger<M>, size: nat, env: nat -> Round<M>, i: nat, k: nat, m: M)
    requires WellFormed(l) && l.lent == [] && 0 < size && m !in l.stored && m !in l.accepted
    requires i < WriteSpec(l, size, env).writes && ArrivesIn(env, i, k, m)
    requires forall t: nat :: i < t ==> env(t).before == [] && env(t).during == []
    ensures m in WriteSpec(l, size, env).ledger.accepted <==>
      k < l.cap && i + 1 + k / size <= |l.stored| / size && forall t: nat :: i <= t <= i + 1 + k / size ==> env(t).ok
  {
    hide WriteFrom, WellFormed, GoesOut, ArrivesIn;
    ArrivalsGoFirst(l, size, env, i, k, m);
    QuietTurns(env, size, l.cap, k, i + 1, Turns(l, size));
  }

  lemma QuietTurns<M>(env: nat -> Round<M>, size: nat, cap: nat, k: nat, j: nat, turns: nat)
    requires 0 < size && j <= turns && forall t: nat :: j <= t ==> env(t).before == [] && env(t).during == []
    ensures GoesOut(env, size, cap, k, j, turns) <==>
      k < cap && j + k / size < turns && forall t: nat :: j <= t <= j + k / size ==> env(t).ok
  {
    hide GoesOut;
    assert k / size * size <= k < k / size * size + size;
    QuietGoesOut(env, size, cap, k, k / size, j, turns);
  }

  lemma {:induction false} QuietGoesOut<M>(env: nat -> Round<M>, size: nat, cap: nat, k: nat, q: nat, j: nat,
                                           turns: nat)
    requires 0 < size && j <= turns && forall t: nat :: j <= t ==> env(t).before == [] && env(t).during == []
    requires q * size <= k < q * size + size
    ensures GoesOut(env, size, cap, k, j, turns) <==>
      k < cap && j + q < turns && forall t: nat :: j <= t <= j + q ==> env(t).ok
    decreases turns - j
  {
    if q == 0 {
    } else if j < turns {
      assert q * size == size + (q - 1) * size && 0 <= (q - 1) * size;
      QuietGoesOut(env, size, cap, k - size, q - 1, j + 1, turns);
    }
  }

  /** A buffer with metric 1, written one by one: metric 9, which arrives meanwhile, goes out in the same call. */
  lemma ArrivalExample()
    ensures var l, env := Add(Empty(3), 1), (i: nat) => Round([], if i == 0 then [9] else [], true);
      WellFormed(l) && l.lent == [] && 9 in WriteSpec(l, 1, env).ledger.accepted
  {
    var l, env := Add(Empty(3), 1), (i: nat) => Round([], if i == 0 then [9] else [], true);
    AddCases(Empty<int>(3), 1);
    assert l.stored == [1];
    BatchCases(l, 1);
    assert Batch(l, 1).lent != [] && AddAll(l, []) == l;
    assert ArrivesIn(env, 0, 0, 9);
    OneTurn(l, 1, env, 0, Turns(l, 1));
    ArrivalTurn(l, 1, env, 0, 0, 9);
  }

  /** Metrics may as well arrive before the turn starts. */
  lemma SameTurn<M>(l: Ledger<M>, size: nat, env: nat -> Round<M>, env': nat -> Round<M>, j: nat, turns: nat)
    requires WellFormed(l) && l.lent == [] && j < turns
    requires env'(j) == env(j).(before := []) && forall t: nat :: t != j ==> env'(t) == env(t)
    ensures WriteFrom(AddAll(l, env(j).before), size, env', j, turns) == WriteFrom(l, size, env, j, turns)
  {
    hide TakeBack, Batch, WellFormed;
    var added := AddAll(l, env(j).before);
    assert AddAll(added, []) == added;
    OneTurn(l, size, env, j, turns);
    OneTurn(added, size, env', j, turns);
    SameRounds(After(l, size, env(j)), size, env, env', j + 1, turns);
  }

  lemma {:induction false} SameRounds<M>(l: Ledger<M>, size: nat, env: nat -> Round<M>, env': nat -> Round<M>,
                                         j: nat, turns: nat)
    requires WellFormed(l) && l.lent == [] && j <= turns
    requires forall t: nat :: j <= t ==> env'(t) == env(t)
    ensures WriteFrom(l, size, env, j, turns) == WriteFrom(l, size, env', j, turns)
    decreases turns - j
  {
    hide Batch, AddAll, Accept, TakeBack, WellFormed;
    if j < turns {
      SameRounds(After(l, size, env(j)), size, env, env', j + 1, turns);
    }
  }

  lemma TurnWrites<M>(l: Ledger<M>, size: nat, env: nat -> Round<M>, i: nat, turns: nat)
    requires WellFormed(l) && l.lent == [] && i < turns && 0 < WriteFrom(l, size, env, i, turns).writes
    ensures Batch(AddAll(l, env(i).before), size).lent != []
  {
  }

  lemma LastTurn<M>(l: Ledger<M>, size: nat, env: nat -> Round<M>, turns: nat)
    requires WellFormed(l) && l.lent == []
    ensures WriteFrom(l, size, env, turns, turns) == Outcome(l, Sent, 0)
  {
  }

  lemma OneTurn<M>(l: Ledger<M>, size: nat, env: nat -> Round<M>, i: nat, turns: nat)
    requires WellFormed(l) && l.lent == [] && i < turns
    ensures var batched := Batch(AddAll(l, env(i).before), size);
      WellFormed(batched) && var written := AddAll(batched, env(i).during);
      && WellFormed(Accept(written)) && Accept(written).lent == []
      && WriteFrom(l, size, env, i, turns) ==
        if batched.lent == [] then Outcome(batched, Sent, 0)
        else if !env(i).ok then Outcome(TakeBack(written), Failed, 1)
        else
          var rest := WriteFrom(Accept(written), size, env, i + 1, turns);
          rest.(writes := rest.writes + 1)
  {
  }

  lemma {:induction false} OneTurnOn<M>(l: Ledger<M>, size: nat, env: nat -> Round<M>, j: nat, i: nat)
    requires WellFormed(l) && l.lent == [] && j <= i
    ensures AtTurn(l, size, env, j, i + 1) == After(AtTurn(l, size, env, j, i), size, env(i))
    decreases i - j
  {
    hide After, WellFormed;
    if j < i {
      OneTurnOn(After(l, size, env(j)), size, env, j + 1, i);
    } else {
      assert AtTurn(l, size, env, i, i + 1) == AtTurn(After(l, size, env(i)), size, env, i + 1, i + 1);
    }
  }

  // ---------- conservation ----------

  lemma {:induction false} WriteFromConserves<M>(l: Ledger<M>, size: nat, env: nat -> Round<M>, i: nat, turns: nat)
    requires WellFormed(l) && l.lent == [] && i <= turns && Conserved(l)
    ensures Conserved(WriteFrom(l, size, env, i, turns).ledger)
    decreases turns - i
  {
    hide Conserved, Accept, Batch, AddAll, TakeBack;
    if i < turns {
      AddAllConserves(l, env(i).before);
      var added := AddAll(l, env(i).before);
      BatchCases(added, size);
      BatchConserves(added, size);
      var batched := Batch(added, size);
      if batched.lent != [] {
        AddAllConserves(batched, env(i).during);
        var written := AddAll(batched, env(i).during);
        AcceptConserves(written);
        TakeBackConserves(written);
        AcceptSettles(written);
        if env(i).ok {
          WriteFromConserves(Accept(written), size, env, i + 1, turns);
        }
      }
    }
  }

  /** A loop loses metrics if and only if its last write fails and loses some. */
  lemma {:induction false} LastTurnLoses<M>(l: Ledger<M>, size: nat, env: nat -> Round<M>, i: nat, turns: nat)
    requires WellFormed(l) && l.lent == [] && i <= turns
    ensures var r := WriteFrom(l, size, env, i, turns);
      r.ledger.lost != l.lost <==>
      r.status == Failed && var j := i + r.writes - 1; Loses(Written(AtTurn(l, size, env, i, j), size, env(j)))
    decreases turns - i
  {
    hide Accept, Batch, AddAll, TakeBack, Loses, WellFormed;
    if i < turns {
      var batched := Batch(AddAll(l, env(i).before), size);
      BatchStarts(AddAll(l, env(i).before), size);
      if batched.lent != [] {
        if env(i).ok {
          AcceptSettles(Written(l, size, env(i)));
          LastTurnLoses(After(l, size, env(i)), size, env, i + 1, turns);
        } else {
          BackLoses(Written(l, size, env(i)));
        }
      }
    }
  }

  lemma AcceptSettles<M>(l: Ledger<M>)
    requires WellFormed(l)
    ensures WellFormed(Accept(l)) && Accept(l).lent == [] && Accept(l).cap == l.cap && Accept(l).lost == l.lost
  {
  }

  lemma BatchStarts<M>(l: Ledger<M>, n: nat)
    requires WellFormed(l) && l.lent == []
    ensures Batch(l, n).newer == 0 && Batch(l, n).cap == l.cap && Batch(l, n).lost == l.lost
  {
  }

  /**
    However many metrics arrive meanwhile and whatever the output does, a `Write` calls the
    output at most stored / size + 1 times, and every metric ever added is then stored,
    accepted, rejected or lost: exactly one of them, once. Metrics are lost if and only if the
    last write fails and putting its batch back loses some; not for the first time if no more
    metrics arrived during a write than the buffer holds.
  */
  lemma WriteConserves<M>(l: Ledger<M>, size: nat, env: nat -> Round<M>)
    requires WellFormed(l) && l.lent == [] && 0 < size && Conserved(l)
    ensures var r := WriteSpec(l, size, env);
      && r.writes <= |l.stored| / size + 1
      && Conserved(r.ledger) && r.ledger.lent == []
      && (r.ledger.lost != l.lost <==>
          r.status == Failed && Loses(Written(AtTurn(l, size, env, 0, r.writes - 1), size, env(r.writes - 1))))
      && ((forall j: nat :: |env(j).during| <= l.cap) ==> l.lost == [] ==> r.ledger.lost == [])
  {
    hide WriteFrom, WellFormed, Written, Loses;
    WriteFromConserves(l, size, env, 0, Turns(l, size));
    LastTurnLoses(l, size, env, 0, Turns(l, size));
    var r := WriteSpec(l, size, env);
    if r.status == Failed && l.lost == [] && |env(r.writes - 1).during| <= l.cap {
      FirstNeedsOverrun(Written(AtTurn(l, size, env, 0, r.writes - 1), size, env(r.writes - 1)));
    }
  }

  lemma FirstNeedsOverrun(l: Ledger)
    requires WellFormed(l) && l.lost == [] && l.newer <= l.cap
    ensures !Loses(l)
  {
    if Loses(l) {
      FirstLossByOverrun(l);
    }
  }

  class Output<M> {
    const buffer: Buffer<M>
    const metricBatchSize: nat

    ghost predicate Valid()
      reads this, buffer, buffer.buf
    {
      0 < metricBatchSize && buffer.Valid() && buffer.ledger.lent == []
    }

    constructor (limit: nat, batchSize: nat)
      requires 1 <= limit && 1 <= batchSize
      ensures Valid() && fresh(buffer) && fresh(buffer.buf)
      ensures buffer.ledger == Empty(limit) && metricBatchSize == batchSize
    {
      buffer := new Buffer<M>(limit);
      metricBatchSize := batchSize;
    }

    /**
      One turn: take a batch, write it, and settle it. This is also the whole of `WriteBatch`.
      A batch that fails goes back as `TakeBack` says.
    */
    method WriteBatch(round: Round<M>) returns (wrote: bool, ok: bool)
      requires Valid()
      modifies buffer, buffer.buf
      ensures var batched := Batch(AddAll(old(buffer.ledger), round.before), metricBatchSize);
        if batched.lent == [] then
          !wrote && ok && buffer.ledger == batched
        else
          var written := AddAll(batched, round.during);
          wrote && ok == round.ok && buffer.ledger == if ok then Accept(written) else TakeBack(written)
      ensures Valid() && (ok ==> buffer.ledger.lost == old(buffer.ledger.lost))
    {
      var dropped := buffer.Add(round.before);
      var batch := buffer.Batch(metricBatchSize);
      if |batch| == 0 {
        return false, true;
      }
      dropped := buffer.Add(round.during);
      if !round.ok {
        buffer.Reject(batch);
        return true, false;
      }
      buffer.Accept(batch);
      return true, true;
    }

    /** Write everything in the buffer, batch by batch, until it is empty or the output fails. */
    method Write(env: nat -> Round<M>) returns (ok: bool, writes: nat)
      requires Valid()
      modifies buffer, buffer.buf
      ensures var r := WriteSpec(old(buffer.ledger), metricBatchSize, env);
        ok == r.status.Sent? && writes == r.writes && buffer.ledger == r.ledger
      ensures Valid()
    {
      hide WriteFrom, Batch, AddAll, Accept, TakeBack, WellFormed;
      var nBuffer := buffer.Len();
      var nBatches := nBuffer / metricBatchSize + 1;
      writes := 0;
      for i := 0 to nBatches
        invariant Valid() && writes == i
        invariant var r, r' := WriteSpec(old(buffer.ledger), metricBatchSize, env),
                               WriteFrom(buffer.ledger, metricBatchSize, env, i, nBatches);
          r == r'.(writes := r'.writes + writes)
      {
        OneTurn(buffer.ledger, metricBatchSize, env, i, nBatches);
        var wrote, done := WriteBatch(env(i));
        if !wrote {
          return true, writes;
        }
        writes := writes + 1;
        if !done {
          return false, writes;
        }
      }
      LastTurn(buffer.ledger, metricBatchSize, env, nBatches);
      return true, writes;
    }
  }
}
