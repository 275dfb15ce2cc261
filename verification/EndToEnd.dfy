/**
  A consumer loop on top of the delivery tracker: the loop issues groups of metrics, the
  agent fans them out to its outputs, and the tracker's notifications come back through
  the loop's channel.
*/
module EndToEnd {
  import opened Options
  import D = Delivery
  import C = Consumers

  datatype World = World(sys: D.System, loop: C.State)

  function Start(limits: seq<nat>, kind: C.Kind, max: nat): World {
    World(D.Start(limits), C.Start(kind, max))
  }

  datatype Step =
    | Agent(d: D.Step)            // the agent and its other inputs
    | Loop(c: C.Step)             // the loop on its own
    | IssueGroup(id: nat, n: nat) // the loop starts tracking a group of n metrics
    | NotifyGroup(id: nat)        // the tracker notifies a group of the loop

  predicate Enabled(w: World, step: Step) {
    match step
    case Agent(d) => D.Enabled(w.sys, d) && !(d.Notify? && d.id in w.loop.used)
    case Loop(c) => C.Enabled(w.loop, c) && !c.Issue? && !c.Notify?
    case IssueGroup(id, n) => w.loop.pc.Issuing? && D.Enabled(w.sys, D.Create(id, n))
    case NotifyGroup(id) => D.Enabled(w.sys, D.Notify(id)) && id in w.loop.used
  }

  /**
    What could go wrong in a step: a negative reference count, a blocked release, a tracking
    id in use, a group notified twice, or a full channel.
  */
  predicate Safe(w: World, step: Step) {
    match step
    case Agent(d) => d.Decrement? && d.m.Tracked? ==> 1 <= D.TrackOf(w.sys, d.m).rc
    case Loop(c) => C.ReleaseReady(w.loop, c)
    case IssueGroup(id, _) => id !in w.loop.used
    case NotifyGroup(id) => id in w.loop.open && C.Room(w.loop)
  }

  /** What the loop is told about a group. */
  predicate Clean(w: World, id: nat) {
    D.TrackOf(w.sys, D.Tracked(id)).rejects == 0
  }

  ghost function Do(w: World, step: Step): World
    requires D.Wired(w.sys) && Enabled(w, step) && Safe(w, step)
  {
    match step
    case Agent(d) => w.(sys := D.Do(w.sys, d))
    case Loop(c) => w.(loop := C.Do(w.loop, c))
    case IssueGroup(id, n) => World(D.Do(w.sys, D.Create(id, n)), C.Do(w.loop, C.Issue(id)))
    case NotifyGroup(id) => World(D.Do(w.sys, D.Notify(id)), C.Do(w.loop, C.Notify(id, Clean(w, id))))
  }

  /** The loop's groups are tracked, and open until they are notified. */
  ghost predicate Linked(w: World) {
    forall id :: id in w.loop.used ==>
      && id in w.sys.tracks
      && (id in w.loop.open <==> D.Noted(w.sys.notes, id) == 0)
  }

  /** A notification in the channel tells the truth about a group that is finished. */
  ghost predicate Truthful(w: World, note: C.Note) {
    && note.id in w.sys.tracks
    && w.sys.tracks[note.id].rc == 0
    && (note.delivered <==> w.sys.tracks[note.id].rejects == 0)
  }

  ghost predicate Inv(w: World) {
    && D.Inv(w.sys) && C.Inv(w.loop) && Linked(w)
    && forall k :: 0 <= k < |w.loop.chan| ==> Truthful(w, w.loop.chan[k])
  }

  lemma ClosingUnnoted(s: D.System, id: nat)
    requires D.Inv(s) && id in s.closing
    ensures id in s.tracks && s.tracks[id].rc == 0 && D.Noted(s.notes, id) == 0
  {
    hide D.Live, D.Unmarked;
    assert id !in s.tracks ==> D.Untouched(s, id);
    assert D.GroupInv(s, id);
  }

  lemma StepIsSafe(w: World, step: Step)
    requires Inv(w) && Enabled(w, step)
    ensures Safe(w, step)
  {
    match step
    case Agent(d) =>
      if d.Decrement? && d.m.Tracked? {
        D.TouchesKnown(w.sys, d);
      }
    case Loop(c) => C.StepIsSafe(w.loop, c);
    case IssueGroup(id, _) =>
    case NotifyGroup(id) =>
      ClosingUnnoted(w.sys, id);
      C.StepIsSafe(w.loop, C.Notify(id, true));
  }

  /** A step of the agent keeps what the loop relies on, unless it notifies one of the loop's groups. */
  lemma AgentKeepsLink(w: World, d: D.Step, id: nat)
    requires D.Inv(w.sys) && D.Enabled(w.sys, d) && id in w.sys.tracks && d != D.Notify(id)
    ensures var sys := D.Do(w.sys, d);
      id in sys.tracks && D.Noted(sys.notes, id) == D.Noted(w.sys.notes, id)
  {
    hide D.Do, D.Inv, D.Noted, D.Enabled;
    D.InvWired(w.sys);
    if D.Touches(w.sys, d).Tracked? {
      D.TouchesKnown(w.sys, d);
    }
    D.StepTracks(w.sys, d, id);
    D.StepClosing(w.sys, d, id);
  }

  lemma AgentKeepsTruth(w: World, d: D.Step, note: C.Note)
    requires D.Inv(w.sys) && D.Enabled(w.sys, d) && Truthful(w, note)
    ensures Truthful(w.(sys := D.Do(w.sys, d)), note)
  {
    hide D.Do, D.Inv, D.Enabled;
    D.InvWired(w.sys);
    D.StepLeavesFinished(w.sys, d, note.id);
  }

  lemma AgentKeepsInv(w: World, d: D.Step)
    requires Inv(w) && Enabled(w, Agent(d))
    ensures Inv(w.(sys := D.Do(w.sys, d)))
  {
    hide D.Do, D.Inv, C.Inv, D.Enabled, Truthful, D.Noted;
    D.InvWired(w.sys);
    var w' := w.(sys := D.Do(w.sys, d));
    D.StepKeepsInv(w.sys, d);
    forall id | id in w.loop.used
      ensures id in w'.sys.tracks && D.Noted(w'.sys.notes, id) == D.Noted(w.sys.notes, id)
    {
      AgentKeepsLink(w, d, id);
    }
    forall k | 0 <= k < |w.loop.chan| ensures Truthful(w', w.loop.chan[k]) {
      AgentKeepsTruth(w, d, w.loop.chan[k]);
    }
  }

  lemma LoopKeepsInv(w: World, c: C.Step)
    requires Inv(w) && Enabled(w, Loop(c)) && C.ReleaseReady(w.loop, c)
    ensures Inv(w.(loop := C.Do(w.loop, c)))
  {
    hide D.Inv, C.Inv, D.Noted;
    var w' := w.(loop := C.Do(w.loop, c));
    C.StepKeepsInv(w.loop, c);
    assert w'.loop.open == w.loop.open && w'.loop.used == w.loop.used;
    forall k | 0 <= k < |w'.loop.chan| ensures Truthful(w', w'.loop.chan[k]) {
      assert w'.loop.chan[k] in w.loop.chan;
      assert Truthful(w, w'.loop.chan[k]);
    }
  }

  lemma IssueKeepsInv(w: World, id: nat, n: nat)
    requires Inv(w) && Enabled(w, IssueGroup(id, n)) && id !in w.loop.used
    ensures Inv(World(D.Do(w.sys, D.Create(id, n)), C.Do(w.loop, C.Issue(id))))
  {
    hide D.Do, D.Inv, C.Inv, Truthful, D.Noted;
    var d := D.Create(id, n);
    D.InvWired(w.sys);
    var w' := World(D.Do(w.sys, d), C.Do(w.loop, C.Issue(id)));
    D.StepKeepsInv(w.sys, d);
    C.StepKeepsInv(w.loop, C.Issue(id));
    D.NewGroup(w.sys, id, n);
    forall x | x in w.loop.used
      ensures x in w'.sys.tracks && D.Noted(w'.sys.notes, x) == D.Noted(w.sys.notes, x)
    {
      AgentKeepsLink(w, d, x);
    }
    forall k | 0 <= k < |w'.loop.chan| ensures Truthful(w', w'.loop.chan[k]) {
      AgentKeepsTruth(w, d, w.loop.chan[k]);
      SameTruth(w.(sys := D.Do(w.sys, d)), w', w.loop.chan[k]);
    }
  }

  lemma SameTruth(w: World, w': World, note: C.Note)
    requires Truthful(w, note) && w'.sys == w.sys
    ensures Truthful(w', note)
  {
  }

  lemma NotifyKeepsInv(w: World, id: nat)
    requires Inv(w) && Enabled(w, NotifyGroup(id)) && id in w.loop.open
    ensures Inv(World(D.Do(w.sys, D.Notify(id)), C.Do(w.loop, C.Notify(id, Clean(w, id)))))
  {
    hide D.Inv, C.Inv, D.Noted;
    var d := D.Notify(id);
    D.InvWired(w.sys);
    var w' := World(D.Do(w.sys, d), C.Do(w.loop, C.Notify(id, Clean(w, id))));
    D.StepKeepsInv(w.sys, d);
    C.StepKeepsInv(w.loop, C.Notify(id, Clean(w, id)));
    ClosingUnnoted(w.sys, id);
    D.StepClosing(w.sys, d, id);
    forall x | x in w.loop.used && x != id
      ensures x in w'.sys.tracks && D.Noted(w'.sys.notes, x) == D.Noted(w.sys.notes, x)
    {
      AgentKeepsLink(w, d, x);
    }
    assert w'.sys.tracks == w.sys.tracks;
    forall k | 0 <= k < |w'.loop.chan| ensures Truthful(w', w'.loop.chan[k]) {
      assert k < |w.loop.chan| ==> Truthful(w, w.loop.chan[k]);
    }
  }

  /** Every step of the whole keeps the invariant. */
  lemma StepKeepsInv(w: World, step: Step)
    requires Inv(w) && Enabled(w, step)
    ensures D.Wired(w.sys) && Safe(w, step) && Inv(Do(w, step))
  {
    StepIsSafe(w, step);
    D.InvWired(w.sys);
    hide Inv, Enabled;
    match step
    case Agent(d) => AgentKeepsInv(w, d);
    case Loop(c) => LoopKeepsInv(w, c);
    case IssueGroup(id, n) => IssueKeepsInv(w, id, n);
    case NotifyGroup(id) => NotifyKeepsInv(w, id);
  }

  ghost predicate Run(limits: seq<nat>, kind: C.Kind, max: nat, steps: seq<Step>, worlds: seq<World>) {
    && 0 < |limits| && (forall i :: 0 <= i < |limits| ==> 0 < limits[i])
    && |worlds| == |steps| + 1 && worlds[0] == Start(limits, kind, max)
    && forall i :: 0 <= i < |steps| ==>
      && Enabled(worlds[i], steps[i])
      && (D.Wired(worlds[i].sys) && Safe(worlds[i], steps[i]) ==> worlds[i + 1] == Do(worlds[i], steps[i]))
  }

  lemma {:induction false} RunKeepsInv(limits: seq<nat>, kind: C.Kind, max: nat, steps: seq<Step>,
                                       worlds: seq<World>, k: nat)
    requires Run(limits, kind, max, steps, worlds) && k <= |steps|
    ensures Inv(worlds[k])
  {
    hide Do, Enabled, Safe, D.Inv, C.Inv, D.Wired, D.Start;
    if k == 0 {
      D.StartInv(limits);
      C.StartInv(kind, max);
    } else {
      RunKeepsInv(limits, kind, max, steps, worlds, k - 1);
      StepKeepsInv(worlds[k - 1], steps[k - 1]);
      assert worlds[k - 1 + 1] == Do(worlds[k - 1], steps[k - 1]);
    }
  }

  /**
    In every run of a consumer loop over the tracker, the fan-out and any number of buffered
    outputs, no step goes wrong: no reference count becomes negative, no group is notified
    twice, the delivery channel is never full, and no token release blocks.
  */
  lemma NothingGoesWrong(limits: seq<nat>, kind: C.Kind, max: nat, steps: seq<Step>, worlds: seq<World>, k: nat)
    requires Run(limits, kind, max, steps, worlds) && k < |steps|
    ensures Safe(worlds[k], steps[k])
  {
    RunKeepsInv(limits, kind, max, steps, worlds, k);
    StepIsSafe(worlds[k], steps[k]);
  }

  /** What a run is for the agent: a run of the delivery machine, with the steps of the loop left out. */
  lemma {:induction false} AgentRun(limits: seq<nat>, kind: C.Kind, max: nat, steps: seq<Step>, worlds: seq<World>,
                                    k: nat)
    returns (ds: seq<D.Step>, states: seq<D.System>)
    requires Run(limits, kind, max, steps, worlds) && k <= |steps|
    ensures D.Run(limits, ds, states) && states[|ds|] == worlds[k].sys
  {
    hide Do, Enabled, Safe, D.Inv, C.Inv, D.Wired, D.Start, D.Enabled, D.Do;
    if k == 0 {
      ds, states := [], [worlds[0].sys];
    } else {
      ds, states := AgentRun(limits, kind, max, steps, worlds, k - 1);
      var w, step := worlds[k - 1], steps[k - 1];
      RunKeepsInv(limits, kind, max, steps, worlds, k - 1);
      StepKeepsInv(w, step);
      assert worlds[k - 1 + 1] == Do(w, step);
      var d := AgentStep(w, step);
      if d.Some? {
        ds, states := ds + [d.value], states + [worlds[k].sys];
      }
    }
  }

  lemma AgentStep(w: World, step: Step) returns (d: Option<D.Step>)
    requires D.Wired(w.sys) && Enabled(w, step) && Safe(w, step)
    ensures d.None? ==> Do(w, step).sys == w.sys
    ensures d.Some? ==> D.Enabled(w.sys, d.value) && Do(w, step).sys == D.Do(w.sys, d.value)
  {
    hide D.Do, D.Enabled;
    match step
    case Agent(x) => d := Some(x);
    case Loop(_) => d := None;
    case IssueGroup(id, n) => d := Some(D.Create(id, n));
    case NotifyGroup(id) => d := Some(D.Notify(id));
  }

  /**
    A message is settled on the truth: when the loop reads a notification, every handle on the
    group's metrics, copies for all outputs included, is finished. The notification says
    delivered exactly when no output rejected one of them, and that is exactly when each output
    has accepted all that it was given.
  */
  lemma SettledOnTheTruth(limits: seq<nat>, kind: C.Kind, max: nat, steps: seq<Step>, worlds: seq<World>, k: nat)
    requires Run(limits, kind, max, steps, worlds) && k < |steps| && steps[k] == Loop(C.Read)
    ensures worlds[k].loop.chan != []
    ensures var note, sys := worlds[k].loop.chan[0], worlds[k].sys;
      && note.id in sys.tracks && note.id in worlds[k].loop.groups
      && D.Live(sys, D.Tracked(note.id)) == 0
      && (note.delivered <==> D.Unrejected(sys, D.Tracked(note.id)))
      && (note.delivered <==> D.AllWritten(sys, D.Tracked(note.id)))
      && var t := sys.tracks[note.id];
        && t.made == t.accepts + t.rejects + t.drops
        && (note.delivered <==> t.made == t.accepts + t.drops)
  {
    hide D.Unrejected, D.AllWritten, D.Inv, C.Tickets, C.Tokens, C.Messages, D.Run, D.Recorded;
    RunKeepsInv(limits, kind, max, steps, worlds, k);
    var w := worlds[k];
    assert Truthful(w, w.loop.chan[0]);
    var id := w.loop.chan[0].id;
    var ds, states := AgentRun(limits, kind, max, steps, worlds, k);
    D.Settled(limits, ds, states, |ds|, id);
    D.AllFinished(w.sys, id);
    C.ReadsKnown(w.loop);
  }

  /** The step reads the notification of a group of message `m`. */
  predicate Settles(w: World, step: Step, m: nat) {
    && step == Loop(C.Read) && w.loop.chan != []
    && w.loop.chan[0].id in w.loop.groups && w.loop.groups[w.loop.chan[0].id] == m
  }

  /** Nothing is left of the group that the loop reads about, and each output has accepted all it was given of it. */
  ghost predicate Written(w: World) {
    && w.loop.chan != []
    && var handle := D.Tracked(w.loop.chan[0].id);
    D.Live(w.sys, handle) == 0 && D.AllWritten(w.sys, handle)
  }

  predicate Malformed(w: World, step: Step, m: nat) {
    step == Loop(C.Take(false)) && w.loop.taken == m
  }

  lemma StepSettles(w: World, step: Step, m: nat)
    requires D.Wired(w.sys) && Enabled(w, step) && Safe(w, step)
    ensures var loop := Do(w, step).loop;
      && loop.kind == w.loop.kind
      && (m in loop.delivered <==> m in w.loop.delivered || (Settles(w, step, m) && w.loop.chan[0].delivered))
      && (m in loop.refused <==>
          || m in w.loop.refused
          || (w.loop.kind == C.Amqp && Settles(w, step, m) && !w.loop.chan[0].delivered)
          || (w.loop.kind == C.Amqp && Malformed(w, step, m)))
  {
    hide D.Do, D.Enabled, C.Do;
    match step
    case Agent(_) =>
    case Loop(c) => LoopSettles(w, c, m);
    case IssueGroup(id, _) => LoopSettles(w, C.Issue(id), m);
    case NotifyGroup(id) => LoopSettles(w, C.Notify(id, Clean(w, id)), m);
  }

  lemma LoopSettles(w: World, c: C.Step, m: nat)
    requires C.Enabled(w.loop, c) && C.ReleaseReady(w.loop, c)
    ensures var loop, step := C.Do(w.loop, c), Loop(c);
      && loop.kind == w.loop.kind
      && (m in loop.delivered <==> m in w.loop.delivered || (Settles(w, step, m) && w.loop.chan[0].delivered))
      && (m in loop.refused <==>
          || m in w.loop.refused
          || (w.loop.kind == C.Amqp && Settles(w, step, m) && !w.loop.chan[0].delivered)
          || (w.loop.kind == C.Amqp && Malformed(w, step, m)))
  {
    hide C.Do;
    C.StepSettles(w.loop, c, m);
    C.StepKeepsConfig(w.loop, c);
  }

  lemma ReadsTruth(limits: seq<nat>, kind: C.Kind, max: nat, steps: seq<Step>, worlds: seq<World>, k: nat, m: nat)
    requires Run(limits, kind, max, steps, worlds) && k < |steps| && Settles(worlds[k], steps[k], m)
    ensures Written(worlds[k]) <==> worlds[k].loop.chan[0].delivered
  {
    hide D.AllWritten, D.Unrejected, D.Live, Run;
    SettledOnTheTruth(limits, kind, max, steps, worlds, k);
  }

  /**
    From message to outputs: a message counts as delivered if and only if a notification of its
    group was read when every output had accepted all that it was given of the group, and
    nothing of it was left anywhere. It was given up if and only if, in the AMQP loop, it was
    malformed or some output had rejected part of it when the notification was read.
  */
  lemma {:induction false} DeliveredIsWritten(limits: seq<nat>, kind: C.Kind, max: nat, steps: seq<Step>,
                                              worlds: seq<World>, k: nat, m: nat)
    requires Run(limits, kind, max, steps, worlds) && k <= |steps|
    ensures worlds[k].loop.kind == kind
    ensures m in worlds[k].loop.delivered <==>
      exists j :: 0 <= j < k && Settles(worlds[j], steps[j], m) && Written(worlds[j])
    ensures m in worlds[k].loop.refused <==>
      exists j :: 0 <= j < k && kind == C.Amqp &&
        ((Settles(worlds[j], steps[j], m) && !Written(worlds[j])) || Malformed(worlds[j], steps[j], m))
  {
    hide Do, Enabled, Safe, Inv, C.Inv, D.Wired, D.Start, Settles, Written, Malformed;
    if 0 < k {
      DeliveredIsWritten(limits, kind, max, steps, worlds, k - 1, m);
      var w, step := worlds[k - 1], steps[k - 1];
      RunKeepsInv(limits, kind, max, steps, worlds, k - 1);
      StepKeepsInv(w, step);
      assert worlds[k - 1 + 1] == Do(w, step);
      StepSettles(w, step, m);
      if Settles(w, step, m) {
        ReadsTruth(limits, kind, max, steps, worlds, k - 1, m);
      }
    }
  }

}
