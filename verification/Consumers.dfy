/**
  The select loops of the Event Hub and AMQP consumers
  (`plugins/inputs/eventhub_consumer/eventhub_consumer.go`,
  `plugins/inputs/amqp_consumer/amqp_consumer.go`) with the tracking accumulator's
  delivery channel (`agent/accumulator.go`), as a step machine. The loop takes a token
  from a semaphore before it takes a message; a full delivery channel is a panic, and a
  token released from an empty semaphore would block for ever.
*/
module Consumers {

  /** The two loops differ in what a failed delivery does, and in whether a message can be malformed. */
  datatype Kind = EventHub | Amqp

  /** A notification waiting in the delivery channel. */
  datatype Note = Note(id: nat, delivered: bool)

  /** Where the loop is. `Inner` is the nested select, entered with one more token. */
  datatype Pc =
    | Outer
    | Inner
    | Issuing(msg: nat)             // about to call AddTrackingMetricGroup
    | Recording(id: nat, msg: nat)  // called it, about to remember the group
    | Stopped(inner: bool)

  /**
    `open` are the groups issued and not yet notified. The last five fields are history:
    ids used, messages taken (numbered from 0), and what became of them; `leaks` counts
    failed deliveries handled in the nested select of the Event Hub loop.
  */
  datatype State = State(
    kind: Kind,
    max: nat,
    tokens: nat,
    groups: map<nat, nat>,
    open: set<nat>,
    chan: seq<Note>,
    pc: Pc,
    used: set<nat>,
    taken: nat,
    delivered: set<nat>,
    refused: set<nat>,
    leaks: nat)

  function Start(kind: Kind, max: nat): State {
    State(kind, max, 0, map[], {}, [], Outer, {}, 0, {}, {}, 0)
  }

  datatype Step =
    | Acquire                       // sem <- empty{}
    | Take(good: bool)              // a message arrives in the nested select
    | Issue(id: nat)                // AddTrackingMetricGroup, with a fresh id
    | Record                        // groups[id] = backup
    | Read                          // a notification is read from the channel
    | Notify(id: nat, ok: bool)     // the tracker notifies a group
    | Stop                          // the context is done, or the message channel closed

  predicate Enabled(s: State, step: Step) {
    match step
    case Acquire => s.pc == Outer && s.tokens < s.max
    case Take(good) => s.pc == Inner && (s.kind == EventHub ==> good)
    case Issue(id) => s.pc.Issuing? && id !in s.used
    case Record => s.pc.Recording?
    case Read => (s.pc == Outer || s.pc == Inner) && s.chan != []
    case Notify(id, ok) => id in s.open
    case Stop => s.pc == Outer || s.pc == Inner
  }

  /** The channel has room, so that the notification does not panic. */
  predicate Room(s: State) {
    |s.chan| < s.max
  }

  /** How many tokens a loop iteration that frees a slot gives back. */
  function Releases(s: State): nat {
    if s.pc == Inner then 2 else 1
  }

  /** Reading a notification: whether the iteration frees a slot. */
  predicate Frees(s: State)
    requires s.chan != []
  {
    var note := s.chan[0];
    match s.kind
    case EventHub => note.delivered || note.id !in s.groups
    case Amqp => note.id in s.groups
  }

  /** Releasing tokens does not block. */
  predicate ReleaseReady(s: State, step: Step) {
    match step
    case Read => s.chan != [] && Frees(s) ==> Releases(s) <= s.tokens
    case Take(good) => !good ==> 1 <= s.tokens
    case _ => true
  }

  function DoRead(s: State): State
    requires s.chan != [] && ReleaseReady(s, Read)
  {
    var note := s.chan[0];
    var s1 := s.(chan := s.chan[1..], groups := s.groups - {note.id}, pc := Outer);
    var msgs := if note.id in s.groups then {s.groups[note.id]} else {};
    if Frees(s) then
      s1.(tokens := s.tokens - Releases(s),
          delivered := if note.delivered then s.delivered + msgs else s.delivered,
          refused := if note.delivered then s.refused else s.refused + msgs)
    else if s.kind == EventHub then
      s1.(pc := Issuing(s.groups[note.id]), leaks := if s.pc == Inner then s.leaks + 1 else s.leaks)
    else
      s1
  }

  function Do(s: State, step: Step): State
    requires Enabled(s, step) && ReleaseReady(s, step)
  {
    match step
    case Acquire => s.(tokens := s.tokens + 1, pc := Inner)
    case Take(good) =>
      if good then
        s.(taken := s.taken + 1, pc := Issuing(s.taken))
      else
        s.(taken := s.taken + 1, refused := s.refused + {s.taken}, tokens := s.tokens - 1, pc := Outer)
    case Issue(id) => s.(open := s.open + {id}, used := s.used + {id}, pc := Recording(id, s.pc.msg))
    case Record => s.(groups := s.groups[s.pc.id := s.pc.msg], pc := Outer)
    case Read => DoRead(s)
    case Notify(id, ok) => s.(open := s.open - {id}, chan := s.chan + [Note(id, ok)])
    case Stop => s.(pc := Stopped(s.pc == Inner))
  }

  /** A token is held for the message in hand. */
  function InHand(pc: Pc): nat {
    if pc.Issuing? || pc.Recording? then 1 else 0
  }

  /** A token is held for the nested select. */
  function ForInner(pc: Pc): nat {
    if pc == Inner || pc == Stopped(true) then 1 else 0
  }

  /** A group that is remembered, or about to be. */
  predicate Known(s: State, id: nat) {
    id in s.groups || (s.pc.Recording? && s.pc.id == id)
  }

  /** Every group issued is open or in the channel, once, until it is read back. */
  ghost predicate Tickets(s: State) {
    && |s.open| + |s.chan| == |s.groups| + (if s.pc.Recording? then 1 else 0)
    && (s.pc.Recording? ==> s.pc.id !in s.groups)
    && (forall id :: id in s.open ==> Known(s, id))
    && (forall k :: 0 <= k < |s.chan| ==> Known(s, s.chan[k].id) && s.chan[k].id !in s.open)
    && (forall j, k :: 0 <= j < k < |s.chan| ==> s.chan[j].id != s.chan[k].id)
    && (forall id :: Known(s, id) || id in s.open ==> id in s.used)
  }

  /**
    The tokens held: one for each group, one for the message in hand, one in the nested select, and
    the leaked ones.
  */
  ghost predicate Tokens(s: State) {
    && s.tokens == |s.groups| + InHand(s.pc) + ForInner(s.pc) + s.leaks
    && s.tokens <= s.max
    && (s.kind == Amqp ==> s.leaks == 0)
    && (s.leaks == 0 || s.leaks < s.max)
  }

  /** The loop is about to do something with message `m`. */
  predicate Handles(s: State, m: nat) {
    (s.pc.Issuing? || s.pc.Recording?) && s.pc.msg == m
  }

  ghost predicate Pending(s: State, m: nat) {
    Handles(s, m) || exists id :: id in s.groups && s.groups[id] == m
  }

  /** Every message taken is pending in one place, delivered, or refused. */
  ghost predicate Messages(s: State) {
    && (forall m: nat :: Pending(s, m) || m in s.delivered || m in s.refused ==> m < s.taken)
    && (forall m :: 0 <= m < s.taken ==> Pending(s, m) || m in s.delivered || m in s.refused)
    && (forall m: nat :: Pending(s, m) ==> m !in s.delivered && m !in s.refused)
    && s.delivered !! s.refused
    && (forall id :: id in s.groups ==> !Handles(s, s.groups[id]))
    && (forall i, j :: i in s.groups && j in s.groups && i != j ==> s.groups[i] != s.groups[j])
    && (s.kind == EventHub ==> s.refused == {})
  }

  ghost predicate Inv(s: State) {
    Tickets(s) && Tokens(s) && Messages(s)
  }

  lemma RemoveKey(m: map<nat, nat>, k: nat)
    ensures |m - {k}| == if k in m then |m| - 1 else |m|
  {
    assert (m - {k}).Keys == m.Keys - {k};
    if k in m {
      assert |m.Keys - {k}| == |m.Keys| - 1;
    } else {
      assert m - {k} == m;
    }
  }

  lemma AddKey(m: map<nat, nat>, k: nat, v: nat)
    requires k !in m
    ensures |m[k := v]| == |m| + 1
  {
    assert m[k := v].Keys == m.Keys + {k};
  }

  /** The next notification belongs to a group the loop remembers. */
  lemma ReadsKnown(s: State)
    requires Tickets(s) && Enabled(s, Read)
    ensures s.chan[0].id in s.groups && 1 <= |s.groups|
  {
    assert Known(s, s.chan[0].id);
    RemoveKey(s.groups, s.chan[0].id);
  }

  /**
    The two hazards cannot happen: a notification finds room in the channel, and an
    iteration that releases one or two tokens finds them in the semaphore.
  */
  lemma StepIsSafe(s: State, step: Step)
    requires Inv(s) && Enabled(s, step)
    ensures ReleaseReady(s, step)
    ensures step.Notify? ==> Room(s)
  {
    match step
    case Read => ReadsKnown(s);
    case Notify(id, _) =>
      assert |s.open - {id}| == |s.open| - 1;
    case _ =>
  }

  lemma ReadEffect(s: State)
    requires Tickets(s) && Tokens(s) && Enabled(s, Read) && ReleaseReady(s, Read)
    ensures var s', id := DoRead(s), s.chan[0].id;
      && id in s.groups
      && s'.groups == s.groups - {id} && |s'.groups| == |s.groups| - 1
      && s'.chan == s.chan[1..] && s'.open == s.open && s'.used == s.used && s'.max == s.max && s'.kind == s.kind
      && s'.taken == s.taken
      && if s.kind == EventHub && !s.chan[0].delivered then
        && s'.pc == Issuing(s.groups[id]) && s'.tokens == s.tokens
        && s'.leaks == s.leaks + ForInner(s.pc) && s'.delivered == s.delivered && s'.refused == s.refused
      else
        && s'.pc == Outer && s'.tokens == s.tokens - 1 - ForInner(s.pc) && s'.leaks == s.leaks
        && s'.delivered == s.delivered + (if s.chan[0].delivered then {s.groups[id]} else {})
        && s'.refused == s.refused + (if s.chan[0].delivered then {} else {s.groups[id]})
  {
    ReadsKnown(s);
    RemoveKey(s.groups, s.chan[0].id);
  }

  lemma KeepsTokens(s: State, step: Step)
    requires Tickets(s) && Tokens(s) && Enabled(s, step) && ReleaseReady(s, step)
    ensures Tokens(Do(s, step))
  {
    hide DoRead, Known, Tickets;
    match step
    case Read => ReadKeepsTokens(s);
    case Record => RecordSize(s);
    case _ =>
  }

  lemma ReadKeepsTokens(s: State)
    requires Tickets(s) && Tokens(s) && Enabled(s, Read) && ReleaseReady(s, Read)
    ensures Tokens(DoRead(s))
  {
    hide DoRead, Known, Tickets;
    ReadEffect(s);
  }

  lemma RecordSize(s: State)
    requires Tickets(s) && s.pc.Recording?
    ensures |s.groups[s.pc.id := s.pc.msg]| == |s.groups| + 1
  {
    AddKey(s.groups, s.pc.id, s.pc.msg);
  }

  lemma ReadKeepsTickets(s: State)
    requires Tickets(s) && Tokens(s) && Enabled(s, Read) && ReleaseReady(s, Read)
    ensures Tickets(DoRead(s))
  {
    hide DoRead, Tokens;
    ReadEffect(s);
    var s', id := DoRead(s), s.chan[0].id;
    forall x | x in s.open ensures Known(s', x) {
      assert Known(s, x);
    }
    forall k | 0 <= k < |s'.chan| ensures Known(s', s'.chan[k].id) && s'.chan[k].id !in s'.open {
      assert s'.chan[k] == s.chan[k + 1];
      assert Known(s, s.chan[k + 1].id);
    }
    forall x | Known(s', x) || x in s'.open ensures x in s'.used {
      assert Known(s, x) || x in s.open;
    }
  }

  lemma NotifyKeepsTickets(s: State, id: nat, ok: bool)
    requires Tickets(s) && id in s.open
    ensures Tickets(Do(s, Notify(id, ok)))
  {
    assert |s.open - {id}| == |s.open| - 1;
    var s' := Do(s, Notify(id, ok));
    assert Known(s, id);
    forall x ensures Known(s', x) == Known(s, x) {
    }
  }

  lemma KeepsTickets(s: State, step: Step)
    requires Tickets(s) && Tokens(s) && Enabled(s, step) && ReleaseReady(s, step)
    ensures Tickets(Do(s, step))
  {
    match step
    case Read => ReadKeepsTickets(s);
    case Notify(id, ok) => NotifyKeepsTickets(s, id, ok);
    case Record => RecordKeepsTickets(s);
    case Issue(id) => IssueKeepsTickets(s, id);
    case _ => SameTickets(s, Do(s, step));
  }

  lemma RecordKeepsTickets(s: State)
    requires Tickets(s) && s.pc.Recording?
    ensures Tickets(Do(s, Record))
  {
    AddKey(s.groups, s.pc.id, s.pc.msg);
    var s' := Do(s, Record);
    forall x ensures Known(s', x) == Known(s, x) {
    }
  }

  lemma IssueKeepsTickets(s: State, id: nat)
    requires Tickets(s) && s.pc.Issuing? && id !in s.used
    ensures Tickets(Do(s, Issue(id)))
  {
    assert |s.open + {id}| == |s.open| + 1;
    var s' := Do(s, Issue(id));
    forall x ensures Known(s', x) == (Known(s, x) || x == id) {
    }
  }

  lemma SameTickets(s: State, s': State)
    requires Tickets(s) && s'.groups == s.groups && s'.open == s.open && s'.chan == s.chan && s'.used == s.used
    requires !s.pc.Recording? && !s'.pc.Recording?
    ensures Tickets(s')
  {
    forall x ensures Known(s', x) == Known(s, x) {
    }
  }

  lemma ReadPending(s: State, x: nat)
    requires Inv(s) && Enabled(s, Read) && ReleaseReady(s, Read)
    ensures Pending(DoRead(s), x) <==> Pending(s, x) && (DoRead(s).pc.Issuing? || x != s.groups[s.chan[0].id])
  {
    hide DoRead, Tokens;
    ReadEffect(s);
    var s', id := DoRead(s), s.chan[0].id;
    if Pending(s', x) && !Handles(s', x) {
      var i :| i in s'.groups && s'.groups[i] == x;
      assert i in s.groups && s.groups[i] == x && i != id;
    }
    if Pending(s, x) {
      var i :| i in s.groups && s.groups[i] == x;
      assert i != id ==> i in s'.groups && s'.groups[i] == x;
    }
  }

  /** A failed delivery goes back into hand: its message stays pending. */
  lemma Redelivered(s: State, s': State, id: nat)
    requires Messages(s) && id in s.groups && (s.pc == Outer || s.pc == Inner)
    requires s'.groups == s.groups - {id} && s'.pc == Issuing(s.groups[id])
    requires s'.taken == s.taken && s'.kind == s.kind && s'.delivered == s.delivered && s'.refused == s.refused
    requires forall x: nat :: Pending(s', x) <==> Pending(s, x)
    ensures Messages(s')
  {
    hide Pending;
  }

  /** A settled delivery: its message moves from pending to delivered or refused. */
  lemma Settled(s: State, s': State, id: nat, ok: bool)
    requires Messages(s) && id in s.groups && Pending(s, s.groups[id]) && (s.kind == EventHub ==> ok)
    requires s'.groups == s.groups - {id} && s'.pc == Outer && s'.taken == s.taken && s'.kind == s.kind
    requires s'.delivered == s.delivered + (if ok then {s.groups[id]} else {})
    requires s'.refused == s.refused + (if ok then {} else {s.groups[id]})
    requires forall x: nat :: Pending(s', x) <==> Pending(s, x) && x != s.groups[id]
    ensures Messages(s')
  {
    hide Pending;
  }

  lemma ReadKeepsMessages(s: State)
    requires Inv(s) && Enabled(s, Read) && ReleaseReady(s, Read)
    ensures Messages(DoRead(s))
  {
    hide DoRead, Tokens, Pending, Tickets, Messages;
    ReadEffect(s);
    var s', id := DoRead(s), s.chan[0].id;
    GroupPending(s, id);
    forall x: nat ensures Pending(s', x) <==> Pending(s, x) && (s'.pc.Issuing? || x != s.groups[id]) {
      ReadPending(s, x);
    }
    if s'.pc.Issuing? {
      Redelivered(s, s', id);
    } else {
      Settled(s, s', id, s.chan[0].delivered);
    }
  }

  lemma GroupPending(s: State, id: nat)
    requires id in s.groups
    ensures Pending(s, s.groups[id])
  {
  }

  lemma TakeKeepsMessages(s: State, good: bool)
    requires Messages(s) && s.pc == Inner && (s.kind == EventHub ==> good) && 1 <= s.tokens
    ensures Messages(Do(s, Take(good)))
  {
    var s' := Do(s, Take(good));
    forall x: nat ensures Pending(s', x) <==> Pending(s, x) || (good && x == s.taken) {
    }
    forall id | id in s.groups ensures s.groups[id] < s.taken {
      GroupPending(s, id);
    }
    hide Pending;
  }

  lemma RecordKeepsMessages(s: State)
    requires Tickets(s) && Messages(s) && s.pc.Recording?
    ensures Messages(Do(s, Record))
  {
    var s' := Do(s, Record);
    forall x: nat ensures Pending(s', x) <==> Pending(s, x) {
      if Pending(s, x) && !Handles(s, x) {
        var i :| i in s.groups && s.groups[i] == x;
        assert i in s'.groups && s'.groups[i] == x;
      } else if Handles(s, x) {
        assert s'.groups[s.pc.id] == x;
      }
    }
  }

  lemma SameMessages(s: State, s': State)
    requires Messages(s) && s'.groups == s.groups && s'.taken == s.taken && s'.kind == s.kind
    requires s'.delivered == s.delivered && s'.refused == s.refused
    requires forall m: nat :: Handles(s', m) <==> Handles(s, m)
    ensures Messages(s')
  {
    forall x: nat ensures Pending(s', x) == Pending(s, x) {
    }
  }

  lemma KeepsMessages(s: State, step: Step)
    requires Inv(s) && Enabled(s, step) && ReleaseReady(s, step)
    ensures Messages(Do(s, step))
  {
    hide Messages, Tickets;
    match step
    case Read => ReadKeepsMessages(s);
    case Take(good) => TakeKeepsMessages(s, good);
    case Record => RecordKeepsMessages(s);
    case _ => SameMessages(s, Do(s, step));
  }

  /** Every step keeps the invariant. */
  lemma StepKeepsInv(s: State, step: Step)
    requires Inv(s) && Enabled(s, step)
    ensures ReleaseReady(s, step) && Inv(Do(s, step))
  {
    hide Tickets, Tokens, Messages, Do;
    StepIsSafe(s, step);
    KeepsTickets(s, step);
    KeepsTokens(s, step);
    KeepsMessages(s, step);
  }

  ghost predicate Run(kind: Kind, max: nat, steps: seq<Step>, states: seq<State>) {
    && |states| == |steps| + 1 && states[0] == Start(kind, max)
    && forall i :: 0 <= i < |steps| ==>
      && Enabled(states[i], steps[i])
      && (ReleaseReady(states[i], steps[i]) ==> states[i + 1] == Do(states[i], steps[i]))
  }

  lemma {:induction false} RunKeepsInv(kind: Kind, max: nat, steps: seq<Step>, states: seq<State>, k: nat)
    requires Run(kind, max, steps, states) && k <= |steps|
    ensures Inv(states[k])
    ensures states[k].max == max && states[k].kind == kind
  {
    hide Inv, ReleaseReady, Do, Enabled;
    if k == 0 {
      StartInv(kind, max);
    } else {
      RunKeepsInv(kind, max, steps, states, k - 1);
      StepKeepsInv(states[k - 1], steps[k - 1]);
      StepKeepsConfig(states[k - 1], steps[k - 1]);
      assert states[k - 1 + 1] == Do(states[k - 1], steps[k - 1]);
    }
  }

  lemma StartInv(kind: Kind, max: nat)
    ensures Inv(Start(kind, max))
  {
  }

  lemma StepKeepsConfig(s: State, step: Step)
    requires Enabled(s, step) && ReleaseReady(s, step)
    ensures Do(s, step).max == s.max && Do(s, step).kind == s.kind
  {
  }

  /**
    In every run of either loop, also after it stopped: groups issued and not yet read back
    never outnumber the tokens held, which never outnumber `max`; so the delivery channel
    has room for every notification, and no release of one or two tokens blocks.
  */
  lemma LoopIsSafe(kind: Kind, max: nat, steps: seq<Step>, states: seq<State>, k: nat)
    requires Run(kind, max, steps, states) && k < |steps|
    ensures var s := states[k];
      && |s.open| + |s.chan| <= s.tokens <= max
      && ReleaseReady(s, steps[k])
      && (steps[k].Notify? ==> Room(s))
  {
    RunKeepsInv(kind, max, steps, states, k);
    StepIsSafe(states[k], steps[k]);
  }

  /**
    The tokens held are exactly one per group, message in hand and nested select, plus one
    per failed delivery that the Event Hub loop handled in its nested select; the AMQP loop
    leaks none.
  */
  lemma TokensAccounted(kind: Kind, max: nat, steps: seq<Step>, states: seq<State>, k: nat)
    requires Run(kind, max, steps, states) && k <= |steps|
    ensures var s := states[k];
      && s.tokens == |s.groups| + InHand(s.pc) + ForInner(s.pc) + s.leaks
      && (kind == Amqp ==> s.leaks == 0)
  {
    RunKeepsInv(kind, max, steps, states, k);
  }

  /** Leaked tokens never use up the semaphore: with no group outstanding, the loop can take a message. */
  lemma NeverStarved(kind: Kind, max: nat, steps: seq<Step>, states: seq<State>, k: nat)
    requires Run(kind, max, steps, states) && k <= |steps| && 0 < max
    requires states[k].pc == Outer && states[k].groups == map[]
    ensures Enabled(states[k], Acquire)
  {
    RunKeepsInv(kind, max, steps, states, k);
  }

  /**
    Every message taken is either pending in one place, delivered, or refused, and never two
    of these; the Event Hub loop refuses none, so it loses no message.
  */
  lemma MessagesAccounted(kind: Kind, max: nat, steps: seq<Step>, states: seq<State>, k: nat, m: nat)
    requires Run(kind, max, steps, states) && k <= |steps|
    ensures var s := states[k];
      && (m < s.taken <==> Pending(s, m) || m in s.delivered || m in s.refused)
      && !(Pending(s, m) && m in s.delivered) && !(Pending(s, m) && m in s.refused)
      && !(m in s.delivered && m in s.refused)
      && (kind == EventHub ==> m !in s.refused)
  {
    RunKeepsInv(kind, max, steps, states, k);
  }

  /** The step settles message `m` as delivered: the notification of its group says so. */
  predicate Delivers(s: State, step: Step, m: nat) {
    && step == Read && s.chan != [] && s.chan[0].delivered
    && s.chan[0].id in s.groups && s.groups[s.chan[0].id] == m
  }

  /** The notification of the group of message `m` says that it was not delivered. */
  predicate Fails(s: State, step: Step, m: nat) {
    && step == Read && s.chan != [] && !s.chan[0].delivered
    && s.chan[0].id in s.groups && s.groups[s.chan[0].id] == m
  }

  /** The step gives message `m` up: its delivery failed, or it is malformed. */
  predicate GivesUp(s: State, step: Step, m: nat) {
    s.kind == Amqp && (Fails(s, step, m) || (step == Take(false) && s.taken == m))
  }

  /** What a step does with a message; the Event Hub loop issues one whose delivery failed again. */
  lemma StepSettles(s: State, step: Step, m: nat)
    requires Enabled(s, step) && ReleaseReady(s, step)
    ensures var s' := Do(s, step);
      && (m in s'.delivered <==> m in s.delivered || Delivers(s, step, m))
      && (m in s'.refused <==> m in s.refused || GivesUp(s, step, m))
      && (s.kind == EventHub && Fails(s, step, m) ==> s'.pc == Issuing(m))
  {
  }

  /**
    Messages are settled as their notifications say: a message counts as delivered if and only
    if a notification of its group was read that says so, and was given up if and only if, in
    the AMQP loop, one was read that says not delivered or the message was malformed. (A
    malformed message is acknowledged to the broker all the same, so that it does not come back.)
  */
  lemma {:induction false} SettledAsTold(kind: Kind, max: nat, steps: seq<Step>, states: seq<State>, k: nat, m: nat)
    requires Run(kind, max, steps, states) && k <= |steps|
    ensures m in states[k].delivered <==> exists j :: 0 <= j < k && Delivers(states[j], steps[j], m)
    ensures m in states[k].refused <==> exists j :: 0 <= j < k && GivesUp(states[j], steps[j], m)
  {
    hide Inv, ReleaseReady, Do, Enabled, Delivers, GivesUp;
    if 0 < k {
      SettledAsTold(kind, max, steps, states, k - 1, m);
      RunKeepsInv(kind, max, steps, states, k - 1);
      StepIsSafe(states[k - 1], steps[k - 1]);
      StepSettles(states[k - 1], steps[k - 1], m);
      assert states[k - 1 + 1] == Do(states[k - 1], steps[k - 1]);
    }
  }

  /**
    How the Event Hub loop leaks: with room for two messages, a failed delivery that arrives
    in the nested select leaves two tokens held for the one message in hand.
  */
  lemma LeakExample() returns (s: State)
    ensures var s1 := Do(Do(Do(Do(Start(EventHub, 2), Acquire), Take(true)), Issue(7)), Record);
      s == Do(Do(Do(s1, Acquire), Notify(7, false)), Read)
    ensures s.groups == map[] && s.pc == Issuing(0) && s.tokens == 2 && s.leaks == 1
  {
    var s1 := Do(Do(Do(Do(Start(EventHub, 2), Acquire), Take(true)), Issue(7)), Record);
    assert s1.groups == map[7 := 0] && s1.tokens == 1 && s1.pc == Outer && s1.open == {7};
    var s2 := Do(Do(s1, Acquire), Notify(7, false));
    assert s2.chan == [Note(7, false)];
    s := Do(s2, Read);
  }
}
