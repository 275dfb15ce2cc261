/**
  Delivery tracking (`metric/tracking.go`) under the agent's fan-out to several outputs
  and their buffers, as a step machine. Each atomic operation and each critical section
  is one step, and steps of different goroutines interleave freely; in particular, a
  metric's Accept(), Reject() or Drop() is three steps: count the verdict, decrement
  the reference count, and notify when the count reached zero.
*/
module Delivery {
  import opened Seqs
  import opened BufferSpec

  /** A metric as the tracker sees it: a handle on its group, or untracked. */
  datatype Metric = Plain | Tracked(id: nat)

  datatype Verdict = Accepted | Rejected | Dropped

  /** Finishing calls that were begun on metrics, by verdict. */
  datatype Calls = Calls(accept: multiset<Metric>, reject: multiset<Metric>, drop: multiset<Metric>)

  function With(c: Calls, v: Verdict, ms: multiset<Metric>): Calls {
    match v
    case Accepted => c.(accept := c.accept + ms)
    case Rejected => c.(reject := c.reject + ms)
    case Dropped => c.(drop := c.drop + ms)
  }

  function Without(c: Calls, v: Verdict, ms: multiset<Metric>): Calls {
    match v
    case Accepted => c.(accept := c.accept - ms)
    case Rejected => c.(reject := c.reject - ms)
    case Dropped => c.(drop := c.drop - ms)
  }

  function Of(c: Calls, v: Verdict): multiset<Metric> {
    match v
    case Accepted => c.accept
    case Rejected => c.reject
    case Dropped => c.drop
  }

  /**
    A group's shared counters. `made` (handles ever created) and `drops` are history;
    the source keeps the other three.
  */
  datatype Track = Track(rc: int, accepts: nat, rejects: nat, drops: nat, made: nat)

  /** What is passed to the notify function. */
  datatype Info = Info(id: nat, accepted: nat, rejected: nat) {
    predicate Delivered() {
      rejected == 0
    }
  }

  /** The fan-out loop: idle, or holding a metric for the outputs from `next` on. */
  datatype Fan = Idle | Sending(m: Metric, next: nat, copied: bool)

  datatype System = System(
    tracks: map<nat, Track>,
    transit: multiset<Metric>,      // created, not yet taken by the fan-out loop
    fan: Fan,
    outputs: seq<Ledger<Metric>>,   // the buffer of each output, with its lent batch
    calls: Calls,                   // finishing calls begun
    marked: Calls,                  // verdict counted, reference count not yet decremented
    closing: multiset<nat>,         // groups whose count reached zero, notify still to come
    notes: seq<Info>)               // notifications made

  const NoCalls := Calls(multiset{}, multiset{}, multiset{})

  /** The system at start-up, with outputs of the given buffer limits. */
  function Start(limits: seq<nat>): System {
    System(map[], multiset{}, Idle, seq(|limits|, i requires 0 <= i < |limits| => Empty(limits[i])),
           NoCalls, NoCalls, multiset{}, [])
  }

  datatype Step =
    | Create(id: nat, n: nat)       // a group of n metrics starts being tracked
    | Emit                          // an untracked metric
    | Discard(m: Metric)            // filtered by an input, or dropped for its aggregate
    | Receive(m: Metric)            // the fan-out loop takes a metric
    | CopyForNext                   // and copies it for an output that is not the last
    | Deliver(keep: bool)           // AddMetric: buffered, or filtered out
    | TakeBatch(o: nat, n: nat)
    | AcceptBatch(o: nat)
    | RejectBatch(o: nat)
    | Mark(m: Metric, v: Verdict)   // the first atomic of a finishing call
    | Decrement(m: Metric, v: Verdict) // the second
    | Notify(id: nat)               // the notify call of the handle that saw zero

  predicate Enabled(s: System, step: Step) {
    match step
    case Create(id, n) => id !in s.tracks
    case Emit => true
    case Discard(m) => m in s.transit
    case Receive(m) => m in s.transit && s.fan.Idle?
    case CopyForNext => s.fan.Sending? && !s.fan.copied && s.fan.next + 1 < |s.outputs|
    case Deliver(keep) => s.fan.Sending? && (s.fan.copied || s.fan.next + 1 == |s.outputs|)
    case TakeBatch(o, n) => o < |s.outputs| && s.outputs[o].lent == []
    case AcceptBatch(o) => o < |s.outputs| && s.outputs[o].lent != []
    case RejectBatch(o) => o < |s.outputs| && s.outputs[o].lent != []
    case Mark(m, v) => m in Of(s.calls, v)
    case Decrement(m, v) => m in Of(s.marked, v)
    case Notify(id) => id in s.closing
  }

  predicate Wired(s: System) {
    && 0 < |s.outputs|
    && (forall i :: 0 <= i < |s.outputs| ==> WellFormed(s.outputs[i]))
    && (s.fan.Sending? ==> s.fan.next < |s.outputs| && (s.fan.copied ==> s.fan.next + 1 < |s.outputs|))
  }

  function Counted(t: Track, v: Verdict): Track {
    match v
    case Accepted => t.(accepts := t.accepts + 1)
    case Rejected => t.(rejects := t.rejects + 1)
    case Dropped => t.(drops := t.drops + 1)
  }

  /** Counter updates happen only for handles; on an untracked metric the calls do nothing. */
  function Update(s: System, m: Metric, t: Track): System {
    if m.Tracked? then s.(tracks := s.tracks[m.id := t]) else s
  }

  function TrackOf(s: System, m: Metric): Track {
    if m.Tracked? && m.id in s.tracks then s.tracks[m.id] else Track(0, 0, 0, 0, 0)
  }

  ghost function Do(s: System, step: Step): System
    requires Wired(s) && Enabled(s, step)
  {
    match step
    case Create(id, n) =>
      s.(tracks := s.tracks[id := Track(n, 0, 0, 0, n)],
         transit := s.transit[Tracked(id) := s.transit[Tracked(id)] + n],
         closing := if n == 0 then s.closing + multiset{id} else s.closing)
    case Emit => s.(transit := s.transit + multiset{Plain})
    case Discard(m) =>
      s.(transit := s.transit - multiset{m}, calls := With(s.calls, Dropped, multiset{m}))
    case Receive(m) => s.(transit := s.transit - multiset{m}, fan := Sending(m, 0, false))
    case CopyForNext =>
      var t := TrackOf(s, s.fan.m);
      Update(s.(fan := s.fan.(copied := true)), s.fan.m, t.(rc := t.rc + 1, made := t.made + 1))
    case Deliver(keep) =>
      var m, o := s.fan.m, s.fan.next;
      var fan := if o + 1 == |s.outputs| then Idle else Sending(m, o + 1, false);
      if keep then
        s.(fan := fan, outputs := s.outputs[o := Add(s.outputs[o], m)],
           calls := With(s.calls, Rejected, multiset(AddDrops(s.outputs[o], m))))
      else
        s.(fan := fan, calls := With(s.calls, Dropped, multiset{m}))
    case TakeBatch(o, n) => s.(outputs := s.outputs[o := Batch(s.outputs[o], n)])
    case AcceptBatch(o) =>
      s.(outputs := s.outputs[o := Accept(s.outputs[o])],
         calls := With(s.calls, Accepted, multiset(s.outputs[o].lent)))
    case RejectBatch(o) =>
      s.(outputs := s.outputs[o := TakeBack(s.outputs[o])],
         calls := With(s.calls, Rejected, multiset(Returned(s.outputs[o]).calls)))
    case Mark(m, v) =>
      Update(s.(calls := Without(s.calls, v, multiset{m}), marked := With(s.marked, v, multiset{m})),
             m, Counted(TrackOf(s, m), v))
    case Decrement(m, v) =>
      var t := TrackOf(s, m);
      Update(s.(marked := Without(s.marked, v, multiset{m}),
                closing := if m.Tracked? && t.rc - 1 == 0 then s.closing + multiset{m.id} else s.closing),
             m, t.(rc := t.rc - 1))
    case Notify(id) =>
      var t := TrackOf(s, Tracked(id));
      s.(closing := s.closing - multiset{id}, notes := s.notes + [Info(id, t.accepts, t.rejects)])
  }

  // ---------- counting handles ----------

  ghost function InFan(f: Fan, m: Metric): nat {
    if f.Sending? && f.m == m then if f.copied then 2 else 1 else 0
  }

  ghost function InBuffer(l: Ledger<Metric>, m: Metric): nat {
    multiset(l.stored)[m] + multiset(l.lent)[m] + multiset(l.lost)[m]
  }

  ghost function InBuffers(ls: seq<Ledger<Metric>>, m: Metric): nat {
    if ls == [] then 0 else InBuffers(ls[..|ls| - 1], m) + InBuffer(ls[|ls| - 1], m)
  }

  ghost function InCalls(c: Calls, m: Metric): nat {
    c.accept[m] + c.reject[m] + c.drop[m]
  }

  /** Handles on which no verdict was counted yet. */
  ghost function Unmarked(s: System, m: Metric): nat {
    s.transit[m] + InFan(s.fan, m) + InBuffers(s.outputs, m) + InCalls(s.calls, m)
  }

  /** Handles not finished: in transit, in the fan-out loop, stored, lent out, lost, or in a finishing call. */
  ghost function Live(s: System, m: Metric): nat {
    Unmarked(s, m) + InCalls(s.marked, m)
  }

  /** How often a group was notified. */
  ghost function Noted(notes: seq<Info>, id: nat): nat {
    if notes == [] then 0
    else Noted(notes[..|notes| - 1], id) + if notes[|notes| - 1].id == id then 1 else 0
  }

  lemma {:induction false} InBuffersUpdate(ls: seq<Ledger<Metric>>, i: nat, l: Ledger<Metric>, m: Metric)
    requires i < |ls|
    ensures InBuffers(ls[i := l], m) == InBuffers(ls, m) - InBuffer(ls[i], m) + InBuffer(l, m)
  {
    var k := |ls| - 1;
    if i < k {
      InBuffersUpdate(ls[..k], i, l, m);
      assert ls[i := l][..k] == ls[..k][i := l];
    } else {
      assert ls[i := l][..k] == ls[..k];
    }
  }

  lemma InCallsWith(c: Calls, v: Verdict, ms: multiset<Metric>, m: Metric)
    ensures InCalls(With(c, v, ms), m) == InCalls(c, m) + ms[m]
  {
  }

  lemma InCallsWithout(c: Calls, v: Verdict, x: Metric, m: Metric)
    requires x in Of(c, v)
    ensures InCalls(Without(c, v, multiset{x}), m) == InCalls(c, m) - (if x == m then 1 else 0)
  {
  }

  /** How many unmarked handles on `m` a step creates, less those it marks. */
  ghost function UnmarkedDelta(s: System, step: Step, m: Metric): int {
    match step
    case Create(id, n) => if m == Tracked(id) then n else 0
    case Emit => if m == Plain then 1 else 0
    case CopyForNext => if s.fan.Sending? && s.fan.m == m then 1 else 0
    case Mark(x, _) => if x == m then -1 else 0
    case _ => 0
  }

  /** How many handles on `m` a step marks, less those it finishes. */
  ghost function MarkedDelta(step: Step, m: Metric): int {
    match step
    case Mark(x, _) => if x == m then 1 else 0
    case Decrement(x, _) => if x == m then -1 else 0
    case _ => 0
  }

  lemma DeliverCounts(s: System, keep: bool, m: Metric)
    requires Wired(s) && Enabled(s, Deliver(keep))
    ensures Unmarked(Do(s, Deliver(keep)), m) == Unmarked(s, m)
  {
    hide Add, AddDrops, WellFormed;
    var o, x := s.fan.next, s.fan.m;
    var l := s.outputs[o];
    if keep {
      var l' := Add(l, x);
      AddBalance(l, x);
      assert (multiset(l.stored) + multiset{x})[m] == multiset(l'.stored)[m] + multiset(AddDrops(l, x))[m];
      AddLent(l, x);
      InBuffersUpdate(s.outputs, o, l', m);
      InCallsWith(s.calls, Rejected, multiset(AddDrops(l, x)), m);
    } else {
      InCallsWith(s.calls, Dropped, multiset{x}, m);
    }
  }

  lemma AddLent(l: Ledger<Metric>, x: Metric)
    requires WellFormed(l)
    ensures Add(l, x).lent == l.lent && Add(l, x).lost == l.lost
  {
  }

  lemma TakeBatchCounts(s: System, o: nat, n: nat, m: Metric)
    requires Wired(s) && Enabled(s, TakeBatch(o, n))
    ensures Unmarked(Do(s, TakeBatch(o, n)), m) == Unmarked(s, m)
  {
    BatchBalance(s.outputs[o], n);
    InBuffersUpdate(s.outputs, o, Batch(s.outputs[o], n), m);
  }

  lemma AcceptBatchCounts(s: System, o: nat, m: Metric)
    requires Wired(s) && Enabled(s, AcceptBatch(o))
    ensures Unmarked(Do(s, AcceptBatch(o)), m) == Unmarked(s, m)
  {
    InBuffersUpdate(s.outputs, o, Accept(s.outputs[o]), m);
    InCallsWith(s.calls, Accepted, multiset(s.outputs[o].lent), m);
  }

  lemma RejectBatchCounts(s: System, o: nat, m: Metric)
    requires Wired(s) && Enabled(s, RejectBatch(o))
    ensures Unmarked(Do(s, RejectBatch(o)), m) == Unmarked(s, m)
  {
    hide TakeBack, Returned, WellFormed, InBuffer;
    var l := s.outputs[o];
    TakeBackCounts(l, m);
    InBuffersUpdate(s.outputs, o, TakeBack(l), m);
    InCallsWith(s.calls, Rejected, multiset(Returned(l).calls), m);
  }

  lemma TakeBackCounts(l: Ledger<Metric>, m: Metric)
    requires WellFormed(l) && l.lent != []
    ensures InBuffer(TakeBack(l), m) + multiset(Returned(l).calls)[m] == InBuffer(l, m)
  {
    hide Returned, WellFormed;
    var b := Returned(l);
    TakeBackBalance(l);
    assert (multiset(l.stored) + multiset(l.lent))[m] ==
      (multiset(b.stored) + multiset(b.calls) + multiset(b.gone))[m];
    assert multiset(l.lost + b.gone)[m] == multiset(l.lost)[m] + multiset(b.gone)[m];
  }

  lemma MarkCounts(s: System, x: Metric, v: Verdict, m: Metric)
    requires Wired(s) && Enabled(s, Mark(x, v))
    ensures var s' := Do(s, Mark(x, v));
      && Unmarked(s', m) == Unmarked(s, m) - (if x == m then 1 else 0)
      && InCalls(s'.marked, m) == InCalls(s.marked, m) + (if x == m then 1 else 0)
  {
    InCallsWithout(s.calls, v, x, m);
    InCallsWith(s.marked, v, multiset{x}, m);
  }

  lemma DecrementCounts(s: System, x: Metric, v: Verdict, m: Metric)
    requires Wired(s) && Enabled(s, Decrement(x, v))
    ensures var s' := Do(s, Decrement(x, v));
      && Unmarked(s', m) == Unmarked(s, m)
      && InCalls(s'.marked, m) == InCalls(s.marked, m) - (if x == m then 1 else 0)
  {
    InCallsWithout(s.marked, v, x, m);
  }

  lemma DiscardCounts(s: System, x: Metric, m: Metric)
    requires Wired(s) && Enabled(s, Discard(x))
    ensures Unmarked(Do(s, Discard(x)), m) == Unmarked(s, m)
  {
    InCallsWith(s.calls, Dropped, multiset{x}, m);
  }

  lemma SourceCounts(s: System, step: Step, m: Metric)
    requires Wired(s) && Enabled(s, step)
    requires step.Create? || step.Emit? || step.Receive? || step.CopyForNext? || step.Notify?
    ensures Unmarked(Do(s, step), m) == Unmarked(s, m) + UnmarkedDelta(s, step, m)
  {
  }

  lemma MarkedUnchanged(s: System, step: Step)
    requires Wired(s) && Enabled(s, step) && !step.Mark? && !step.Decrement?
    ensures Do(s, step).marked == s.marked
  {
    hide Add, Batch, Accept, TakeBack, AddDrops, Returned, WellFormed;
  }

  /** No step loses or duplicates a handle. */
  lemma StepCounts(s: System, step: Step, m: Metric)
    requires Wired(s) && Enabled(s, step)
    ensures Unmarked(Do(s, step), m) == Unmarked(s, m) + UnmarkedDelta(s, step, m)
    ensures InCalls(Do(s, step).marked, m) == InCalls(s.marked, m) + MarkedDelta(step, m)
  {
    hide Do, Unmarked, InCalls, Wired, Enabled;
    if !step.Mark? && !step.Decrement? {
      MarkedUnchanged(s, step);
    }
    match step
    case Discard(x) => DiscardCounts(s, x, m);
    case Deliver(keep) => DeliverCounts(s, keep, m);
    case TakeBatch(o, n) => TakeBatchCounts(s, o, n, m);
    case AcceptBatch(o) => AcceptBatchCounts(s, o, m);
    case RejectBatch(o) => RejectBatchCounts(s, o, m);
    case Mark(x, v) => MarkCounts(s, x, v, m);
    case Decrement(x, v) => DecrementCounts(s, x, v, m);
    case _ => SourceCounts(s, step, m);
  }

  // ---------- the invariant ----------

  /**
    A tracked group: its reference count is the number of its live handles, every handle
    ever made is either live without a verdict or counted, and the group was notified or
    is about to be exactly when the count is zero.
  */
  ghost predicate GroupInv(s: System, id: nat)
    requires id in s.tracks
  {
    var t, m := s.tracks[id], Tracked(id);
    && t.rc == Live(s, m)
    && t.made == Unmarked(s, m) + t.accepts + t.rejects + t.drops
    && s.closing[id] + Noted(s.notes, id) == (if t.rc == 0 then 1 else 0)
  }

  ghost predicate Untouched(s: System, id: nat) {
    Live(s, Tracked(id)) == 0 && s.closing[id] == 0 && Noted(s.notes, id) == 0
  }

  /** A notification carries the final counts of its group. */
  ghost predicate Final(s: System, note: Info) {
    && note.id in s.tracks
    && s.tracks[note.id].rc == 0
    && note.accepted == s.tracks[note.id].accepts
    && note.rejected == s.tracks[note.id].rejects
  }

  ghost predicate Inv(s: System) {
    && Wired(s)
    && (forall id :: id in s.tracks ==> GroupInv(s, id))
    && (forall id :: id !in s.tracks ==> Untouched(s, id))
    && (forall k :: 0 <= k < |s.notes| ==> Final(s, s.notes[k]))
  }

  lemma StepWired(s: System, step: Step)
    requires Wired(s) && Enabled(s, step)
    ensures Wired(Do(s, step))
  {
    hide Add, Batch, Accept, TakeBack, WellFormed, AddDrops, Returned, With, Without, TrackOf, Counted;
    match step
    case Deliver(_) => AddStays(s.outputs[s.fan.next], s.fan.m);
    case TakeBatch(o, n) => BatchCases(s.outputs[o], n);
    case AcceptBatch(o) => AcceptStays(s.outputs[o]);
    case _ =>
  }

  lemma AddStays(l: Ledger<Metric>, m: Metric)
    requires WellFormed(l)
    ensures WellFormed(Add(l, m))
  {
  }

  lemma AcceptStays(l: Ledger<Metric>)
    requires WellFormed(l)
    ensures WellFormed(Accept(l))
  {
  }

  /** The handle whose counters a step updates, if any. */
  function Touches(s: System, step: Step): Metric {
    match step
    case CopyForNext => if s.fan.Sending? then s.fan.m else Plain
    case Mark(m, _) => m
    case Decrement(m, _) => m
    case _ => Plain
  }

  function TrackAfter(step: Step, t: Track): Track {
    match step
    case CopyForNext => t.(rc := t.rc + 1, made := t.made + 1)
    case Mark(_, v) => Counted(t, v)
    case Decrement(_, _) => t.(rc := t.rc - 1)
    case _ => t
  }

  /** A step updates the counters of a live handle only. */
  lemma TouchesLive(s: System, step: Step)
    requires Wired(s) && Enabled(s, step) && Touches(s, step).Tracked?
    ensures 0 < Live(s, Touches(s, step))
    ensures step.Mark? ==> 0 < Unmarked(s, Touches(s, step))
  {
    hide Add, Batch, Accept, TakeBack, WellFormed, InBuffers;
  }

  /** What a step does to the counters of a group. */
  lemma StepTracks(s: System, step: Step, id: nat)
    requires Wired(s) && Enabled(s, step)
    requires Touches(s, step).Tracked? ==> Touches(s, step).id in s.tracks
    ensures var tracks := Do(s, step).tracks;
      && (id in s.tracks && Touches(s, step) == Tracked(id) ==>
            id in tracks && tracks[id] == TrackAfter(step, s.tracks[id]))
      && (id in s.tracks && Touches(s, step) != Tracked(id) ==> id in tracks && tracks[id] == s.tracks[id])
      && (id !in s.tracks ==>
            if step.Create? && step.id == id then id in tracks && tracks[id] == Track(step.n, 0, 0, 0, step.n)
            else id !in tracks)
  {
    hide Add, Batch, Accept, TakeBack, WellFormed, AddDrops, Returned, With, Without;
  }

  ghost function ClosingDelta(s: System, step: Step, id: nat): int {
    match step
    case Create(x, n) => if x == id && n == 0 then 1 else 0
    case Decrement(m, _) => if m == Tracked(id) && TrackOf(s, m).rc == 1 then 1 else 0
    case Notify(x) => if x == id then -1 else 0
    case _ => 0
  }

  lemma StepClosing(s: System, step: Step, id: nat)
    requires Wired(s) && Enabled(s, step)
    ensures Do(s, step).closing[id] == s.closing[id] + ClosingDelta(s, step, id)
    ensures Noted(Do(s, step).notes, id) == Noted(s.notes, id) + if step == Notify(id) then 1 else 0
  {
    hide Add, Batch, Accept, TakeBack, WellFormed, AddDrops, Returned, With, Without, Noted, Counted;
    if step.Notify? {
      NotedMore(s.notes, Do(s, step).notes[|s.notes|], id);
    }
  }

  lemma NotedMore(notes: seq<Info>, note: Info, id: nat)
    ensures Noted(notes + [note], id) == Noted(notes, id) + if note.id == id then 1 else 0
  {
    assert (notes + [note])[..|notes|] == notes;
  }

  lemma TouchesKnown(s: System, step: Step)
    requires Inv(s) && Enabled(s, step) && Touches(s, step).Tracked?
    ensures Touches(s, step).id in s.tracks && 0 < s.tracks[Touches(s, step).id].rc
  {
    hide Live, Unmarked, Enabled, Wired, Noted;
    TouchesLive(s, step);
    var id := Touches(s, step).id;
    assert id !in s.tracks ==> Untouched(s, id);
    assert GroupInv(s, id);
  }

  lemma KeepsGroup(s: System, step: Step, id: nat)
    requires Inv(s) && Enabled(s, step) && id in s.tracks
    ensures id in Do(s, step).tracks && GroupInv(Do(s, step), id)
  {
    hide Do, Unmarked, Wired, Noted, InCalls;
    var m := Tracked(id);
    assert GroupInv(s, id);
    if Touches(s, step).Tracked? {
      TouchesKnown(s, step);
    }
    StepTracks(s, step, id);
    StepCounts(s, step, m);
    StepClosing(s, step, id);
  }

  lemma KeepsUntouched(s: System, step: Step, id: nat)
    requires Inv(s) && Enabled(s, step) && id !in s.tracks
    ensures id in Do(s, step).tracks ==> GroupInv(Do(s, step), id)
    ensures id !in Do(s, step).tracks ==> Untouched(Do(s, step), id)
  {
    hide Do, Unmarked, Wired, Noted, InCalls;
    var m := Tracked(id);
    assert Untouched(s, id);
    if Touches(s, step).Tracked? {
      TouchesKnown(s, step);
    }
    StepTracks(s, step, id);
    StepCounts(s, step, m);
    StepClosing(s, step, id);
  }

  lemma StepNotes(s: System, step: Step, note: Info)
    requires Wired(s) && Enabled(s, step) && note in Do(s, step).notes
    ensures note in s.notes ||
      (step == Notify(note.id) && var t := TrackOf(s, Tracked(note.id)); note == Info(note.id, t.accepts, t.rejects))
  {
    hide Add, Batch, Accept, TakeBack, WellFormed, AddDrops, Returned, With, Without, Counted, TrackOf;
  }

  lemma KeepsFinal(s: System, step: Step, note: Info)
    requires Inv(s) && Enabled(s, step) && note in Do(s, step).notes
    ensures Final(Do(s, step), note)
  {
    hide Do, Unmarked, Wired, Noted, InCalls;
    if Touches(s, step).Tracked? {
      TouchesKnown(s, step);
    }
    StepTracks(s, step, note.id);
    StepNotes(s, step, note);
    if note in s.notes {
      var k :| 0 <= k < |s.notes| && s.notes[k] == note;
      assert Final(s, note);
    } else {
      assert note.id !in s.tracks ==> Untouched(s, note.id);
      assert GroupInv(s, note.id);
    }
  }

  /** Every step keeps the invariant. */
  lemma StepKeepsInv(s: System, step: Step)
    requires Inv(s) && Enabled(s, step)
    ensures Inv(Do(s, step))
  {
    hide Do, GroupInv, Untouched, Final, Wired;
    var s' := Do(s, step);
    StepWired(s, step);
    forall id | id in s'.tracks ensures GroupInv(s', id) {
      if id in s.tracks {
        KeepsGroup(s, step, id);
      } else {
        KeepsUntouched(s, step, id);
      }
    }
    forall id | id !in s'.tracks ensures Untouched(s', id) {
      if id in s.tracks {
        KeepsGroup(s, step, id);
      } else {
        KeepsUntouched(s, step, id);
      }
    }
    forall k | 0 <= k < |s'.notes| ensures Final(s', s'.notes[k]) {
      KeepsFinal(s, step, s'.notes[k]);
    }
  }

  lemma InvWired(s: System)
    requires Inv(s)
    ensures Wired(s)
  {
  }

  lemma NewGroup(s: System, id: nat, n: nat)
    requires Inv(s) && id !in s.tracks
    ensures var s' := Do(s, Create(id, n));
      id in s'.tracks && s'.notes == s.notes && Noted(s.notes, id) == 0
  {
    assert Untouched(s, id);
  }

  // ---------- whole runs ----------

  /** `states` are the states of a system that takes `steps`, in any interleaving. */
  ghost predicate Run(limits: seq<nat>, steps: seq<Step>, states: seq<System>) {
    && 0 < |limits| && (forall i :: 0 <= i < |limits| ==> 0 < limits[i])
    && |states| == |steps| + 1 && states[0] == Start(limits)
    && forall i :: 0 <= i < |steps| ==>
      Wired(states[i]) && Enabled(states[i], steps[i]) && states[i + 1] == Do(states[i], steps[i])
  }

  lemma {:induction false} NoBuffered(limits: seq<nat>, k: nat, m: Metric)
    requires k <= |limits|
    ensures InBuffers(Start(limits).outputs[..k], m) == 0
  {
    if 0 < k {
      NoBuffered(limits, k - 1, m);
      assert Start(limits).outputs[..k][..k - 1] == Start(limits).outputs[..k - 1];
    }
  }

  lemma StartInv(limits: seq<nat>)
    requires 0 < |limits| && (forall i :: 0 <= i < |limits| ==> 0 < limits[i])
    ensures Inv(Start(limits))
  {
    var s := Start(limits);
    forall id ensures Untouched(s, id) {
      NoBuffered(limits, |limits|, Tracked(id));
      assert s.outputs[..|limits|] == s.outputs;
    }
  }

  lemma {:induction false} RunKeepsInv(limits: seq<nat>, steps: seq<Step>, states: seq<System>, k: nat)
    requires Run(limits, steps, states) && k <= |steps|
    ensures Inv(states[k])
  {
    hide Inv, Do, Enabled, Wired, Start;
    if k == 0 {
      StartInv(limits);
    } else {
      RunKeepsInv(limits, steps, states, k - 1);
      StepKeepsInv(states[k - 1], steps[k - 1]);
      assert states[k - 1 + 1] == Do(states[k - 1], steps[k - 1]);
    }
  }

  /**
    In every reachable state a tracked group's reference count is the number of its live
    handles in the channels, the fan-out loop, all buffers, all lent batches, all
    unfinished calls, and those that were lost. The group is notified at most once, and it was
    notified, or its notification is under way, exactly when no handle is live.
  */
  lemma CountsHandles(limits: seq<nat>, steps: seq<Step>, states: seq<System>, k: nat, id: nat)
    requires Run(limits, steps, states) && k <= |steps| && id in states[k].tracks
    ensures var s := states[k];
      && s.tracks[id].rc == Live(s, Tracked(id))
      && Noted(s.notes, id) <= 1
      && (Noted(s.notes, id) + s.closing[id] == 1 <==> Live(s, Tracked(id)) == 0)
  {
    RunKeepsInv(limits, steps, states, k);
    assert GroupInv(states[k], id);
  }

  /** The "negative refcount" panic is unreachable: a decrement finds a count of at least one. */
  lemma NeverNegative(limits: seq<nat>, steps: seq<Step>, states: seq<System>, k: nat)
    requires Run(limits, steps, states) && k < |steps|
    requires steps[k].Decrement? && steps[k].m.Tracked?
    ensures steps[k].m.id in states[k].tracks
    ensures 0 <= states[k].tracks[steps[k].m.id].rc - 1
  {
    RunKeepsInv(limits, steps, states, k);
    TouchesKnown(states[k], steps[k]);
  }

  /** How many of the steps count the verdict `v` for the group. */
  function Marks(steps: seq<Step>, id: nat, v: Verdict): nat {
    if steps == [] then 0
    else Marks(steps[..|steps| - 1], id, v) + if steps[|steps| - 1] == Mark(Tracked(id), v) then 1 else 0
  }

  function CountOf(t: Track, v: Verdict): nat {
    match v
    case Accepted => t.accepts
    case Rejected => t.rejects
    case Dropped => t.drops
  }

  /** A step changes a counter only by counting a verdict. */
  lemma StepCountOf(s: System, step: Step, id: nat, v: Verdict)
    requires Inv(s) && Enabled(s, step)
    ensures var s' := Do(s, step);
      CountOf(TrackOf(s', Tracked(id)), v) ==
        CountOf(TrackOf(s, Tracked(id)), v) + if step == Mark(Tracked(id), v) then 1 else 0
  {
    hide Do, GroupInv, Untouched, Final, Enabled;
    if Touches(s, step).Tracked? {
      TouchesKnown(s, step);
    }
    StepTracks(s, step, id);
  }

  /** The counters count the finishing calls of the run, group by group. */
  lemma {:induction false} CountersAreMarks(limits: seq<nat>, steps: seq<Step>, states: seq<System>, k: nat,
                                            id: nat, v: Verdict)
    requires Run(limits, steps, states) && k <= |steps|
    ensures CountOf(TrackOf(states[k], Tracked(id)), v) == Marks(steps[..k], id, v)
  {
    hide Inv, Do, Enabled, Wired;
    if 0 < k {
      CountersAreMarks(limits, steps, states, k - 1, id, v);
      RunKeepsInv(limits, steps, states, k - 1);
      StepCountOf(states[k - 1], steps[k - 1], id, v);
      assert states[k - 1 + 1] == Do(states[k - 1], steps[k - 1]);
      assert steps[..k][..k - 1] == steps[..k - 1];
    }
  }

  // ---------- calls and what the outputs did ----------

  /** The metrics that the buffer of an output has finished with a verdict; buffers drop none. */
  function Record(l: Ledger<Metric>, v: Verdict): seq<Metric> {
    match v
    case Accepted => l.accepted
    case Rejected => l.rejected
    case Dropped => []
  }

  ghost function Recorded(ls: seq<Ledger<Metric>>, v: Verdict, m: Metric): nat {
    if ls == [] then 0 else Recorded(ls[..|ls| - 1], v, m) + multiset(Record(ls[|ls| - 1], v))[m]
  }

  lemma {:induction false} RecordedUpdate(ls: seq<Ledger<Metric>>, i: nat, l: Ledger<Metric>, v: Verdict, m: Metric)
    requires i < |ls|
    ensures Recorded(ls[i := l], v, m) ==
      Recorded(ls, v, m) - multiset(Record(ls[i], v))[m] + multiset(Record(l, v))[m]
  {
    hide Record;
    var k := |ls| - 1;
    if i < k {
      RecordedUpdate(ls[..k], i, l, v, m);
      assert ls[i := l][..k] == ls[..k][i := l];
    } else {
      assert ls[i := l][..k] == ls[..k];
    }
  }

  lemma {:induction false} RecordedNowhere(ls: seq<Ledger<Metric>>, v: Verdict, m: Metric)
    ensures Recorded(ls, v, m) == 0 <==> forall o :: 0 <= o < |ls| ==> m !in Record(ls[o], v)
  {
    hide Record;
    if ls != [] {
      var k := |ls| - 1;
      RecordedNowhere(ls[..k], v, m);
      assert forall o :: 0 <= o < k ==> ls[..k][o] == ls[o];
      assert m in Record(ls[k], v) <==> 0 < multiset(Record(ls[k], v))[m];
    }
  }

  lemma OfWith(c: Calls, v: Verdict, ms: multiset<Metric>, w: Verdict, m: Metric)
    ensures Of(With(c, v, ms), w)[m] == Of(c, w)[m] + if v == w then ms[m] else 0
  {
  }

  lemma OfWithout(c: Calls, v: Verdict, x: Metric, w: Verdict, m: Metric)
    requires x in Of(c, v)
    ensures Of(Without(c, v, multiset{x}), w)[m] == Of(c, w)[m] - if v == w && x == m then 1 else 0
  {
  }

  /** A step that finishes a metric before it reaches the buffer of an output. */
  predicate Filters(s: System, step: Step, m: Metric) {
    step == Discard(m) || (step == Deliver(false) && s.fan.Sending? && s.fan.m == m)
  }

  /** Finishing calls are begun for exactly the metrics that buffers finish, or filters, with the same verdict. */
  ghost predicate Begins(s: System, step: Step, s': System, v: Verdict, m: Metric) {
    Of(s'.calls, v)[m] + Recorded(s.outputs, v, m) + (if step == Mark(m, v) then 1 else 0) ==
      Of(s.calls, v)[m] + Recorded(s'.outputs, v, m) + (if v == Dropped && Filters(s, step, m) then 1 else 0)
  }

  lemma BufferBegins(s: System, o: nat, l: Ledger<Metric>, v: Verdict, ms: seq<Metric>, w: Verdict, m: Metric)
    requires o < |s.outputs|
    requires forall x :: Record(l, x) == if x == v then Record(s.outputs[o], x) + ms else Record(s.outputs[o], x)
    ensures Of(With(s.calls, v, multiset(ms)), w)[m] + Recorded(s.outputs, w, m) ==
      Of(s.calls, w)[m] + Recorded(s.outputs[o := l], w, m)
  {
    hide Record, With, Of;
    OfWith(s.calls, v, multiset(ms), w, m);
    RecordedUpdate(s.outputs, o, l, w, m);
    assert multiset(Record(s.outputs[o], v) + ms)[m] == multiset(Record(s.outputs[o], v))[m] + multiset(ms)[m];
  }

  lemma AddRecords(l: Ledger<Metric>, m: Metric, v: Verdict)
    requires WellFormed(l)
    ensures Record(Add(l, m), v) == if v == Rejected then Record(l, v) + AddDrops(l, m) else Record(l, v)
  {
  }

  lemma DeliverBegins(s: System, keep: bool, v: Verdict, m: Metric)
    requires Wired(s) && Enabled(s, Deliver(keep))
    ensures Begins(s, Deliver(keep), Do(s, Deliver(keep)), v, m)
  {
    hide Add, AddDrops, WellFormed, Record, With, Recorded, Of;
    var o, x := s.fan.next, s.fan.m;
    if keep {
      forall v { AddRecords(s.outputs[o], x, v); }
      BufferBegins(s, o, Add(s.outputs[o], x), Rejected, AddDrops(s.outputs[o], x), v, m);
    } else {
      OfWith(s.calls, Dropped, multiset{x}, v, m);
    }
  }

  lemma BatchBegins(s: System, step: Step, v: Verdict, m: Metric)
    requires Wired(s) && Enabled(s, step) && (step.TakeBatch? || step.AcceptBatch? || step.RejectBatch?)
    ensures Begins(s, step, Do(s, step), v, m)
  {
    hide WellFormed, With, Recorded, Of, Reverse, Newest, Oldest, Returned;
    match step
    case TakeBatch(o, n) => RecordedUpdate(s.outputs, o, Batch(s.outputs[o], n), v, m);
    case AcceptBatch(o) =>
      BufferBegins(s, o, Accept(s.outputs[o]), Accepted, s.outputs[o].lent, v, m);
    case RejectBatch(o) =>
      BufferBegins(s, o, TakeBack(s.outputs[o]), Rejected, Returned(s.outputs[o]).calls, v, m);
  }

  lemma DiscardBegins(s: System, x: Metric, v: Verdict, m: Metric)
    requires Wired(s) && Enabled(s, Discard(x))
    ensures Begins(s, Discard(x), Do(s, Discard(x)), v, m)
  {
    hide With, Recorded, Of;
    OfWith(s.calls, Dropped, multiset{x}, v, m);
  }

  lemma MarkBegins(s: System, x: Metric, w: Verdict, v: Verdict, m: Metric)
    requires Wired(s) && Enabled(s, Mark(x, w))
    ensures Begins(s, Mark(x, w), Do(s, Mark(x, w)), v, m)
  {
    hide With, Without, Recorded, TrackOf, Counted;
    OfWithout(s.calls, w, x, v, m);
  }

  /** Other steps begin no call and finish nothing in a buffer. */
  lemma OthersBegin(s: System, step: Step, v: Verdict, m: Metric)
    requires Wired(s) && Enabled(s, step)
    requires step.Create? || step.Emit? || step.Receive? || step.CopyForNext? || step.Decrement? || step.Notify?
    ensures Begins(s, step, Do(s, step), v, m)
  {
    hide Do, Recorded, Of, Wired, Enabled;
    OthersLeave(s, step);
  }

  lemma OthersLeave(s: System, step: Step)
    requires Wired(s) && Enabled(s, step)
    requires step.Create? || step.Emit? || step.Receive? || step.CopyForNext? || step.Decrement? || step.Notify?
    ensures Do(s, step).calls == s.calls && Do(s, step).outputs == s.outputs
  {
    hide With, Without, Of, TrackOf, Counted, WellFormed;
  }

  lemma StepBegins(s: System, step: Step, v: Verdict, m: Metric)
    requires Wired(s) && Enabled(s, step)
    ensures Begins(s, step, Do(s, step), v, m)
  {
    hide Do, Begins, Wired, Enabled;
    match step
    case Deliver(keep) => DeliverBegins(s, keep, v, m);
    case TakeBatch(_, _) => BatchBegins(s, step, v, m);
    case AcceptBatch(_) => BatchBegins(s, step, v, m);
    case RejectBatch(_) => BatchBegins(s, step, v, m);
    case Discard(x) => DiscardBegins(s, x, v, m);
    case Mark(x, w) => MarkBegins(s, x, w, v, m);
    case _ => OthersBegin(s, step, v, m);
  }

  /** How often a metric was filtered out in the first `k` steps of a run. */
  ghost function Filtered(steps: seq<Step>, states: seq<System>, k: nat, m: Metric): nat
    requires k <= |steps| && |steps| < |states|
  {
    if k == 0 then 0
    else Filtered(steps, states, k - 1, m) + if Filters(states[k - 1], steps[k - 1], m) then 1 else 0
  }

  /**
    Verdicts are those of the outputs: in every reachable state the verdicts counted for a
    group and those of finishing calls that were begun are one for each time that a buffer
    accepted or rejected one of its handles, and one drop for each that was filtered out.
  */
  lemma {:induction false} VerdictsAreRecorded(limits: seq<nat>, steps: seq<Step>, states: seq<System>, k: nat,
                                               id: nat, v: Verdict)
    requires Run(limits, steps, states) && k <= |steps|
    ensures var s, m := states[k], Tracked(id);
      CountOf(TrackOf(s, m), v) + Of(s.calls, v)[m] ==
        if v == Dropped then Filtered(steps, states, k, m) else Recorded(s.outputs, v, m)
  {
    hide Inv, Do, Enabled, Wired, Filters, Of;
    var m := Tracked(id);
    if k == 0 {
      NothingRecorded(limits, |limits|, v, m);
      assert Start(limits).outputs[..|limits|] == Start(limits).outputs;
    } else {
      VerdictsAreRecorded(limits, steps, states, k - 1, id, v);
      RunKeepsInv(limits, steps, states, k - 1);
      InvWired(states[k - 1]);
      StepCountOf(states[k - 1], steps[k - 1], id, v);
      StepBegins(states[k - 1], steps[k - 1], v, m);
      assert states[k - 1 + 1] == Do(states[k - 1], steps[k - 1]);
      if v == Dropped {
        NoDropRecorded(states[k - 1].outputs, m);
        NoDropRecorded(states[k].outputs, m);
      }
    }
  }

  lemma {:induction false} NothingRecorded(limits: seq<nat>, k: nat, v: Verdict, m: Metric)
    requires k <= |limits|
    ensures Recorded(Start(limits).outputs[..k], v, m) == 0 && Of(NoCalls, v)[m] == 0
  {
    if 0 < k {
      NothingRecorded(limits, k - 1, v, m);
      assert Start(limits).outputs[..k][..k - 1] == Start(limits).outputs[..k - 1];
    }
  }

  lemma NoDropRecorded(ls: seq<Ledger<Metric>>, m: Metric)
    ensures Recorded(ls, Dropped, m) == 0
  {
    RecordedNowhere(ls, Dropped, m);
  }

  // ---------- every output keeps account ----------

  lemma StepConserves(s: System, step: Step)
    requires Wired(s) && Enabled(s, step) && forall o :: 0 <= o < |s.outputs| ==> Conserved(s.outputs[o])
    ensures var s' := Do(s, step);
      |s'.outputs| == |s.outputs| && forall o :: 0 <= o < |s'.outputs| ==> Conserved(s'.outputs[o])
  {
    hide Add, Batch, Accept, TakeBack, AddDrops, Returned, With, Without, TrackOf, Counted, Conserved;
    match step
    case Deliver(keep) => AddConserves(s.outputs[s.fan.next], s.fan.m);
    case TakeBatch(o, n) => BatchConserves(s.outputs[o], n);
    case AcceptBatch(o) => AcceptConserves(s.outputs[o]);
    case RejectBatch(o) => TakeBackConserves(s.outputs[o]);
    case _ =>
  }

  lemma {:induction false} OutputsConserve(limits: seq<nat>, steps: seq<Step>, states: seq<System>, k: nat)
    requires Run(limits, steps, states) && k <= |steps|
    ensures |states[k].outputs| == |limits|
    ensures forall o :: 0 <= o < |limits| ==> Conserved(states[k].outputs[o])
  {
    hide Do, Enabled, Wired, Conserved;
    if k == 0 {
      forall o | 0 <= o < |limits| ensures Conserved(states[0].outputs[o]) {
        EmptyConserves<Metric>(limits[o]);
      }
    } else {
      OutputsConserve(limits, steps, states, k - 1);
      StepConserves(states[k - 1], steps[k - 1]);
      assert states[k - 1 + 1] == Do(states[k - 1], steps[k - 1]);
    }
  }

  // ---------- fan-out ----------

  /** The metrics delivered to an output in the first `k` steps and not filtered out, in order. */
  ghost function Delivered(steps: seq<Step>, states: seq<System>, k: nat, o: nat): seq<Metric>
    requires k <= |steps| && |steps| < |states|
  {
    if k == 0 then []
    else
      var s := states[k - 1];
      Delivered(steps, states, k - 1, o) +
        if steps[k - 1] == Deliver(true) && s.fan.Sending? && s.fan.next == o then [s.fan.m] else []
  }

  lemma StepAdds(s: System, step: Step, o: nat)
    requires Wired(s) && Enabled(s, step) && o < |s.outputs|
    ensures var s' := Do(s, step);
      && |s'.outputs| == |s.outputs|
      && s'.outputs[o].added ==
        s.outputs[o].added + if step == Deliver(true) && s.fan.next == o then [s.fan.m] else []
  {
    hide With, Without, TrackOf, Counted, Returned, AddDrops, Newest, Oldest, Reverse, WellFormed;
  }

  /** What an output was ever given is what the fan-out loop delivered while it was its turn, in that order. */
  lemma {:induction false} AddedAreDelivered(limits: seq<nat>, steps: seq<Step>, states: seq<System>, k: nat, o: nat)
    requires Run(limits, steps, states) && k <= |steps| && o < |limits|
    ensures |states[k].outputs| == |limits| && states[k].outputs[o].added == Delivered(steps, states, k, o)
  {
    hide Do, Enabled, Wired;
    if 0 < k {
      AddedAreDelivered(limits, steps, states, k - 1, o);
      StepAdds(states[k - 1], steps[k - 1], o);
      DeliverSends(states[k - 1], steps[k - 1]);
      assert states[k - 1 + 1] == Do(states[k - 1], steps[k - 1]);
    }
  }

  lemma DeliverSends(s: System, step: Step)
    requires Enabled(s, step)
    ensures step.Deliver? ==> s.fan.Sending?
  {
  }

  /** How often steps `j` to `k` deliver something, kept or filtered out, to an output. */
  ghost function Turns(steps: seq<Step>, states: seq<System>, j: nat, k: nat, o: nat): nat
    requires j <= k <= |steps| && |steps| < |states|
  {
    if j == k then 0
    else
      var s := states[k - 1];
      Turns(steps, states, j, k - 1, o) +
        if steps[k - 1].Deliver? && s.fan.Sending? && s.fan.next == o then 1 else 0
  }

  lemma StepSends(s: System, step: Step)
    requires Wired(s) && Enabled(s, step)
    ensures var fan := Do(s, step).fan;
      if step.Receive? then fan == Sending(step.m, 0, false)
      else if step.CopyForNext? then fan == s.fan.(copied := true)
      else if step.Deliver? then
        s.fan.next < |s.outputs| &&
        fan == if s.fan.next + 1 == |s.outputs| then Idle else Sending(s.fan.m, s.fan.next + 1, false)
      else fan == s.fan
  {
    hide With, Without, TrackOf, Counted, Returned, AddDrops, WellFormed, Add, Batch, Accept, TakeBack;
  }

  /**
    The fan-out law. After a metric is received, and until the loop is idle again, the loop
    holds that metric and delivers it to the outputs in order; when it is idle again each output
    has had its turn exactly once.
  */
  lemma {:induction false} EachOutputOnce(limits: seq<nat>, steps: seq<Step>, states: seq<System>,
                                          j: nat, k: nat, o: nat)
    requires Run(limits, steps, states) && j < k <= |steps| && steps[j].Receive? && o < |limits|
    requires forall i :: j < i < k ==> states[i].fan.Sending?
    ensures forall i :: j < i < k ==> states[i].fan.m == steps[j].m
    ensures var fan := states[k].fan;
      if fan.Idle? then Turns(steps, states, j, k, o) == 1
      else fan.m == steps[j].m && Turns(steps, states, j, k, o) == if o < fan.next then 1 else 0
    decreases k
  {
    hide Do, Enabled, Wired;
    AddedAreDelivered(limits, steps, states, k - 1, 0);
    var s, step := states[k - 1], steps[k - 1];
    StepSends(s, step);
    assert states[k - 1 + 1] == Do(s, step);
    if j == k - 1 {
      assert Turns(steps, states, j, j, o) == 0;
    } else {
      EachOutputOnce(limits, steps, states, j, k - 1, o);
      ReceivesIdle(s, step);
    }
  }

  lemma ReceivesIdle(s: System, step: Step)
    requires Enabled(s, step) && s.fan.Sending?
    ensures !step.Receive?
  {
  }

  /** How many metrics of a group were created in the first `k` steps. */
  ghost function Created(steps: seq<Step>, k: nat, id: nat): nat
    requires k <= |steps|
  {
    if k == 0 then 0
    else Created(steps, k - 1, id) + if steps[k - 1].Create? && steps[k - 1].id == id then steps[k - 1].n else 0
  }

  ghost function Discarded(steps: seq<Step>, k: nat, m: Metric): nat
    requires k <= |steps|
  {
    if k == 0 then 0 else Discarded(steps, k - 1, m) + if steps[k - 1] == Discard(m) then 1 else 0
  }

  predicate Serves(s: System, step: Step, o: nat, m: Metric) {
    step.Deliver? && s.fan.Sending? && s.fan.next == o && s.fan.m == m
  }

  /** How often an output was served with a metric, kept or filtered out there. */
  ghost function Served(steps: seq<Step>, states: seq<System>, k: nat, o: nat, m: Metric): nat
    requires k <= |steps| && |steps| < |states|
  {
    if k == 0 then 0
    else Served(steps, states, k - 1, o, m) + if Serves(states[k - 1], steps[k - 1], o, m) then 1 else 0
  }

  /** Metrics on their way to an output. */
  ghost function Waiting(s: System, o: nat, m: Metric): nat {
    s.transit[m] + if s.fan.Sending? && s.fan.m == m && s.fan.next <= o then 1 else 0
  }

  lemma StepServes(s: System, step: Step, o: nat, id: nat)
    requires Wired(s) && Enabled(s, step) && o < |s.outputs|
    ensures var s', m := Do(s, step), Tracked(id);
      Waiting(s', o, m) + (if step == Discard(m) then 1 else 0) + (if Serves(s, step, o, m) then 1 else 0) ==
        Waiting(s, o, m) + if step.Create? && step.id == id then step.n else 0
  {
    hide With, Without, TrackOf, Counted, Returned, AddDrops, WellFormed, Add, Batch, Accept, TakeBack;
  }

  lemma {:induction false} Accounted(limits: seq<nat>, steps: seq<Step>, states: seq<System>, k: nat, o: nat, id: nat)
    requires Run(limits, steps, states) && k <= |steps| && o < |limits|
    ensures var m := Tracked(id);
      Waiting(states[k], o, m) + Discarded(steps, k, m) + Served(steps, states, k, o, m) == Created(steps, k, id)
  {
    hide Do, Enabled, Wired, Serves, Waiting;
    if k == 0 {
      NothingWaits(limits, o, Tracked(id));
    } else {
      Accounted(limits, steps, states, k - 1, o, id);
      AddedAreDelivered(limits, steps, states, k - 1, o);
      StepServes(states[k - 1], steps[k - 1], o, id);
      assert states[k - 1 + 1] == Do(states[k - 1], steps[k - 1]);
    }
  }

  lemma NothingWaits(limits: seq<nat>, o: nat, m: Metric)
    ensures Waiting(Start(limits), o, m) == 0
  {
  }

  /**
    Nobody is left out: when no handle of a group is live, each output was served once with each
    of its metrics that was not discarded on the way.
  */
  lemma EveryOutputServed(limits: seq<nat>, steps: seq<Step>, states: seq<System>, k: nat, o: nat, id: nat)
    requires Run(limits, steps, states) && k <= |steps| && o < |limits| && Live(states[k], Tracked(id)) == 0
    ensures Served(steps, states, k, o, Tracked(id)) + Discarded(steps, k, Tracked(id)) == Created(steps, k, id)
  {
    Accounted(limits, steps, states, k, o, id);
  }

  /**
    Although the verdict is counted and the reference count decremented in separate
    atomic steps, a notification carries complete counts: every handle ever made on the
    group was accepted, rejected or dropped. The counts are those of the outputs: how often
    their buffers accepted and rejected handles of the group. The group counts as delivered
    exactly when no buffer rejected one, and that is exactly when each buffer accepted every
    handle that it was given.
  */
  lemma NotificationsAreComplete(limits: seq<nat>, steps: seq<Step>, states: seq<System>, k: nat, j: nat)
    requires Run(limits, steps, states) && k <= |steps| && j < |states[k].notes|
    ensures var note, s := states[k].notes[j], states[k];
      var m := Tracked(note.id);
      && note.id in s.tracks
      && note.accepted == Marks(steps[..k], note.id, Accepted) == Recorded(s.outputs, Accepted, m)
      && note.rejected == Marks(steps[..k], note.id, Rejected) == Recorded(s.outputs, Rejected, m)
      && note.accepted + note.rejected + Filtered(steps, states, k, m) == s.tracks[note.id].made
      && (note.Delivered() <==> Unrejected(s, m)) && (note.Delivered() <==> AllWritten(s, m))
  {
    hide Inv, Recorded, Marks, Filtered;
    var s := states[k];
    var note := s.notes[j];
    RunKeepsInv(limits, steps, states, k);
    NoteIsFinal(s, j);
    Settled(limits, steps, states, k, note.id);
    CountersAreMarks(limits, steps, states, k, note.id, Accepted);
    CountersAreMarks(limits, steps, states, k, note.id, Rejected);
  }

  lemma NoteIsFinal(s: System, j: nat)
    requires Inv(s) && j < |s.notes|
    ensures Final(s, s.notes[j])
  {
  }

  /** No buffer has rejected the handle. */
  ghost predicate Unrejected(s: System, m: Metric) {
    forall o :: 0 <= o < |s.outputs| ==> m !in s.outputs[o].rejected
  }

  /** Every buffer has accepted the handle as often as it was given it. */
  ghost predicate AllWritten(s: System, m: Metric) {
    forall o :: 0 <= o < |s.outputs| ==> multiset(s.outputs[o].accepted)[m] == multiset(s.outputs[o].added)[m]
  }

  /** When no handle of a group is live, its counters say what the outputs did. */
  lemma Settled(limits: seq<nat>, steps: seq<Step>, states: seq<System>, k: nat, id: nat)
    requires Run(limits, steps, states) && k <= |steps| && id in states[k].tracks && states[k].tracks[id].rc == 0
    ensures var s, t, m := states[k], states[k].tracks[id], Tracked(id);
      && t.accepts == Recorded(s.outputs, Accepted, m) && t.rejects == Recorded(s.outputs, Rejected, m)
      && t.drops == Filtered(steps, states, k, m) && t.made == t.accepts + t.rejects + t.drops
      && (t.rejects == 0 <==> Unrejected(s, m)) && (t.rejects == 0 <==> AllWritten(s, m))
  {
    hide Inv, Recorded, Conserved, Filtered, InBuffers, Wired, Enabled, Do;
    var s, m := states[k], Tracked(id);
    RunKeepsInv(limits, steps, states, k);
    AllFinished(s, id);
    VerdictsAreRecorded(limits, steps, states, k, id, Accepted);
    VerdictsAreRecorded(limits, steps, states, k, id, Rejected);
    VerdictsAreRecorded(limits, steps, states, k, id, Dropped);
    RecordedNowhere(s.outputs, Rejected, m);
    OutputsConserve(limits, steps, states, k);
    forall o | 0 <= o < |s.outputs|
      ensures m !in s.outputs[o].rejected <==> multiset(s.outputs[o].accepted)[m] == multiset(s.outputs[o].added)[m]
    {
      NoneBuffered(s.outputs, o, m);
      GivenIsFinished(s.outputs[o], m);
    }
  }

  lemma AllFinished(s: System, id: nat)
    requires Inv(s) && id in s.tracks && s.tracks[id].rc == 0
    ensures var t, m := s.tracks[id], Tracked(id);
      && Live(s, m) == 0 && InBuffers(s.outputs, m) == 0
      && s.calls.accept[m] == 0 && s.calls.reject[m] == 0 && s.calls.drop[m] == 0
      && t.made == t.accepts + t.rejects + t.drops
  {
    hide InBuffers, Noted;
    assert GroupInv(s, id);
  }

  lemma {:induction false} NoneBuffered(ls: seq<Ledger<Metric>>, o: nat, m: Metric)
    requires o < |ls| && InBuffers(ls, m) == 0
    ensures InBuffer(ls[o], m) == 0
  {
    hide InBuffer;
    if o < |ls| - 1 {
      NoneBuffered(ls[..|ls| - 1], o, m);
    }
  }

  lemma GivenIsFinished(l: Ledger<Metric>, m: Metric)
    requires Conserved(l) && InBuffer(l, m) == 0
    ensures m !in l.rejected <==> multiset(l.accepted)[m] == multiset(l.added)[m]
  {
    assert multiset(l.added)[m] ==
      (multiset(l.accepted) + multiset(l.rejected) + multiset(l.stored) + multiset(l.lent) + multiset(l.lost))[m];
    assert m in l.rejected <==> 0 < multiset(l.rejected)[m];
  }

  lemma StepLeavesFinished(s: System, step: Step, id: nat)
    requires Inv(s) && Enabled(s, step) && id in s.tracks && s.tracks[id].rc == 0
    ensures id in Do(s, step).tracks && Do(s, step).tracks[id] == s.tracks[id]
  {
    hide Do, GroupInv, Untouched, Final, Enabled;
    if Touches(s, step).Tracked? {
      TouchesKnown(s, step);
    }
    StepTracks(s, step, id);
  }

  /** Once no handle of a group is live, its counters never change again, however the run goes on. */
  lemma {:induction false} FinishedForGood(limits: seq<nat>, steps: seq<Step>, states: seq<System>, j: nat, k: nat,
                                           id: nat)
    requires Run(limits, steps, states) && j <= k <= |steps|
    requires id in states[j].tracks && Live(states[j], Tracked(id)) == 0
    ensures id in states[k].tracks && states[k].tracks[id] == states[j].tracks[id]
    ensures Live(states[k], Tracked(id)) == 0
    decreases k - j
  {
    hide Inv, Do, Enabled, Wired, Live;
    RunKeepsInv(limits, steps, states, k);
    if j < k {
      FinishedForGood(limits, steps, states, j, k - 1, id);
      RunKeepsInv(limits, steps, states, k - 1);
      CountsHandles(limits, steps, states, k - 1, id);
      StepLeavesFinished(states[k - 1], steps[k - 1], id);
      assert states[k - 1 + 1] == Do(states[k - 1], steps[k - 1]);
      CountsHandles(limits, steps, states, k, id);
    }
  }

  // ---------- lost handles ----------

  /**
    A step can only add to the metrics that an output has lost, and does exactly if its batch comes
    back and loses some.
  */
  lemma StepLoses(s: System, step: Step, o: nat)
    requires Wired(s) && Enabled(s, step) && o < |s.outputs|
    ensures var s' := Do(s, step);
      && o < |s'.outputs| && s.outputs[o].lost <= s'.outputs[o].lost
      && (s'.outputs[o].lost != s.outputs[o].lost <==> step == RejectBatch(o) && Loses(s.outputs[o]))
  {
    hide With, Without, TrackOf, Counted, Returned, Loses, AddDrops, Newest, Oldest, Reverse, TakeBack, WellFormed;
    if step.RejectBatch? {
      BackLoses(s.outputs[step.o]);
    }
  }

  /** An output loses its first handles by a batch that comes back after an overrun. */
  lemma {:induction false} LostByOverrun(limits: seq<nat>, steps: seq<Step>, states: seq<System>, k: nat, o: nat)
    requires Run(limits, steps, states) && k <= |steps| && o < |limits|
    ensures o < |states[k].outputs|
    ensures states[k].outputs[o].lost != [] ==>
      exists j :: 0 <= j < k && steps[j] == RejectBatch(o) && o < |states[j].outputs| &&
        var l := states[j].outputs[o]; l.lost == [] && Loses(l) && Overrun(l)
  {
    hide Do, Enabled, WellFormed, Loses, Overrun;
    if 0 < k {
      LostByOverrun(limits, steps, states, k - 1, o);
      StepLoses(states[k - 1], steps[k - 1], o);
      assert states[k - 1 + 1] == Do(states[k - 1], steps[k - 1]);
      if states[k].outputs[o].lost != [] && states[k - 1].outputs[o].lost == [] {
        FirstLossByOverrun(states[k - 1].outputs[o]);
      }
    }
  }

  lemma {:induction false} BufferedCounts(ls: seq<Ledger<Metric>>, o: nat, m: Metric)
    requires o < |ls| && m in ls[o].lost
    ensures 0 < InBuffers(ls, m)
  {
    if o < |ls| - 1 {
      BufferedCounts(ls[..|ls| - 1], o, m);
    }
  }

  /** A group with a lost handle is never notified. */
  lemma {:induction false} LostIsNeverNotified(limits: seq<nat>, steps: seq<Step>, states: seq<System>,
        j: nat, k: nat, o: nat, id: nat)
    requires Run(limits, steps, states) && j <= k <= |steps| && o < |states[j].outputs|
    requires Tracked(id) in states[j].outputs[o].lost
    ensures o < |states[k].outputs| && Tracked(id) in states[k].outputs[o].lost
    ensures Noted(states[k].notes, id) == 0 && states[k].closing[id] == 0
    decreases k - j
  {
    hide Do, Enabled, Wired, Loses, Noted, InBuffers;
    if j < k {
      LostIsNeverNotified(limits, steps, states, j, k - 1, o, id);
      StepLoses(states[k - 1], steps[k - 1], o);
      assert states[k - 1 + 1] == Do(states[k - 1], steps[k - 1]);
    }
    RunKeepsInv(limits, steps, states, k);
    var s := states[k];
    BufferedCounts(s.outputs, o, Tracked(id));
    assert 0 < Live(s, Tracked(id));
    assert id !in s.tracks ==> Untouched(s, id);
    assert GroupInv(s, id);
  }
}
