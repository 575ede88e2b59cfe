/** What the admin server keeps true of commands and deliveries, and the order in which each instance
    is handed its commands. */
module AdminDelivery {
  import opened Wrappers
  import opened Sequences
  import opened AdminServer
  import opened AdminRefinement

  predicate Terminal(status: CommandStatus) {
    status == Completed || status == Failed || status == Skipped
  }

  // ---- status and result of a command ----

  /** The status and result of a command as its deliveries determine them. */
  ghost predicate Consistent(c: Command, states: seq<DeliveryState>) {
    && c.status == (if forall s <- states :: s.status == Pending then Pending else Aggregate(states))
    && c.result == ResultFrom(c.request.kind, states)
    && states != []
  }

  ghost predicate AllConsistent(s: Store) {
    forall id <- s.commands :: Consistent(s.commands[id], StatesOf(s.deliveries, id))
  }

  function StateOf(d: Delivery): DeliveryState {
    DeliveryState(d.target, d.status, d.message)
  }

  /** The state of a delivery when it is one of the command's. */
  function OwnState(d: Delivery, id: CommandId): seq<DeliveryState> {
    if d.command == id then [StateOf(d)] else []
  }

  /** A command's states are those of its deliveries. */
  lemma {:induction false} StatesMeaning(ds: seq<Delivery>, id: CommandId)
    ensures forall s :: s in StatesOf(ds, id) <==> exists i :: 0 <= i < |ds| && ds[i].command == id && s == StateOf(ds[i])
  {
    if ds != [] {
      StatesMeaning(ds[1..], id);
      forall s
        ensures s in StatesOf(ds, id) <==> exists i :: 0 <= i < |ds| && ds[i].command == id && s == StateOf(ds[i])
      {
        if i :| 0 <= i < |ds| - 1 && ds[1..][i].command == id && s == StateOf(ds[1..][i]) {
          assert ds[i + 1].command == id && s == StateOf(ds[i + 1]);
        }
        if i :| 0 < i < |ds| && ds[i].command == id && s == StateOf(ds[i]) {
          assert ds[1..][i - 1].command == id;
        }
      }
    }
  }

  lemma {:induction false} StatesAppend(a: seq<Delivery>, b: seq<Delivery>, id: CommandId)
    ensures StatesOf(a + b, id) == StatesOf(a, id) + StatesOf(b, id)
  {
    if a == [] {
      NilLeft(b);
      NilLeft(StatesOf(b, id));
    } else {
      StatesAppend(a[1..], b, id);
      TailConcat(a, b);
      Assoc(OwnState(a[0], id), StatesOf(a[1..], id), StatesOf(b, id));
    }
  }

  /** Updating a delivery of another command leaves a command's states alone. */
  lemma {:induction false} StatesElsewhere(ds: seq<Delivery>, k: nat, d: Delivery, id: CommandId)
    requires k < |ds| && ds[k].command != id && d.command != id
    ensures StatesOf(ds[k := d], id) == StatesOf(ds, id)
  {
    UpdateTail(ds, k, d);
    if k > 0 {
      StatesElsewhere(ds[1..], k - 1, d, id);
    }
  }

  lemma {:induction false} NoStates(ds: seq<Delivery>, id: CommandId)
    requires forall i :: 0 <= i < |ds| ==> ds[i].command != id
    ensures StatesOf(ds, id) == []
  {
    if ds != [] {
      NoStates(ds[1..], id);
    }
  }

  /** New deliveries are all pending, so the states of their command make no result. */
  lemma {:induction false} NoResults(states: seq<DeliveryState>)
    requires forall s <- states :: s.status == Pending || s.status == Running
    ensures TargetResults(states) == []
  {
    if states != [] {
      assert states[0] in states;
      NoResults(states[1..]);
    }
  }

  lemma SavedOne(c: Command, states: seq<DeliveryState>)
    requires c.status == Pending && c.result == None
    requires states != [] && forall s <- states :: s.status == Pending
    ensures Consistent(c, states)
  {
    NoResults(states);
  }

  lemma SavedStates(ds: seq<Delivery>, added: seq<Delivery>, newId: CommandId, id: CommandId)
    requires forall i :: 0 <= i < |added| ==> added[i].command == newId && added[i].status == Pending
    requires forall i :: 0 <= i < |ds| ==> ds[i].command != newId
    requires added != []
    ensures id != newId ==> StatesOf(ds + added, id) == StatesOf(ds, id)
    ensures id == newId ==> var states := StatesOf(ds + added, id); states != [] && forall s <- states :: s.status == Pending
  {
    StatesAppend(ds, added, id);
    if id == newId {
      NoStates(ds, id);
      StatesMeaning(added, id);
      assert StateOf(added[0]) in StatesOf(added, id);
    } else {
      NoStates(added, id);
    }
  }

  lemma SaveConsistent(s: Store, c: Command, targets: seq<string>)
    requires Sound(s) && AllConsistent(s) && c.id !in s.commands && targets != []
    requires c.status == Pending && c.result == None
    ensures AllConsistent(MemorySave(s, c, targets))
  {
    var s' := MemorySave(s, c, targets);
    var added := seq(|targets|, i requires 0 <= i < |targets| => NewDelivery(c.id, targets[i]));
    forall id | id in s'.commands
      ensures Consistent(s'.commands[id], StatesOf(s'.deliveries, id))
    {
      SavedStates(s.deliveries, added, c.id, id);
      if id == c.id {
        SavedOne(c, StatesOf(s'.deliveries, id));
      }
    }
  }

  lemma ResultsAfter(d: Delivery, id: CommandId, states: seq<DeliveryState>)
    ensures TargetResults(OwnState(d, id) + states)
            == (if d.command == id && TargetResultOf(StateOf(d)).Some? then [TargetResultOf(StateOf(d)).value] else [])
               + TargetResults(states)
  {
    if d.command == id {
      Cons(StateOf(d), states);
    } else {
      NilLeft(states);
      NilLeft(TargetResults(states));
    }
  }

  /** Assigning turns a pending state into a running one and makes no result. */
  lemma {:induction false} AssignedStates(ds: seq<Delivery>, k: nat, d: Delivery)
    requires k < |ds| && ds[k].status == Pending && d.status == Running && d.command == ds[k].command
    ensures TargetResults(StatesOf(ds[k := d], d.command)) == TargetResults(StatesOf(ds, d.command))
    ensures StateOf(d) in StatesOf(ds[k := d], d.command)
  {
    var id := d.command;
    var ds' := ds[k := d];
    UpdateTail(ds, k, d);
    ResultsAfter(ds[0], id, StatesOf(ds[1..], id));
    ResultsAfter(ds'[0], id, StatesOf(ds'[1..], id));
    if k > 0 {
      AssignedStates(ds[1..], k - 1, d);
    }
  }

  lemma AssignedOne(c: Command, states: seq<DeliveryState>, states': seq<DeliveryState>, now: Time)
    requires Consistent(c, states) && TargetResults(states') == TargetResults(states)
    requires exists s <- states' :: s.status == Running
    ensures Consistent(c.(status := Running, updatedAt := now), states')
  {
  }

  lemma AssignConsistent(s: Store, instance: string, now: Time)
    requires Sound(s) && AllConsistent(s)
    ensures AllConsistent(MemoryAssign(s, instance, now).0)
  {
    var s' := MemoryAssign(s, instance, now).0;
    var r := FirstAwaiting(s.deliveries, instance, 0);
    if r.Some? {
      var k := r.value;
      forall id | id in s'.commands
        ensures Consistent(s'.commands[id], StatesOf(s'.deliveries, id))
      {
        if id == s.deliveries[k].command {
          AssignedStates(s.deliveries, k, HandedOut(s.deliveries[k], now));
          AssignedOne(s.commands[id], StatesOf(s.deliveries, id), StatesOf(s'.deliveries, id), now);
        } else {
          StatesElsewhere(s.deliveries, k, HandedOut(s.deliveries[k], now), id);
        }
      }
    }
  }

  lemma ReviewedOne(c: Command, states: seq<DeliveryState>, now: Time, s: DeliveryState)
    requires s in states && s.status != Pending
    ensures Consistent(Reviewed(c, states, now), states)
  {
  }

  lemma CompletedStates(ds: seq<Delivery>, k: nat, d: Delivery)
    requires k < |ds|
    ensures StateOf(d) in StatesOf(ds[k := d], d.command)
  {
    StatesMeaning(ds[k := d], d.command);
    assert ds[k := d][k] == d;
  }

  lemma RecordedOne(s: Store, k: nat, d: Delivery, now: Time, id: CommandId)
    requires Known(s.commands, s.deliveries) && AllConsistent(s) && k < |s.deliveries|
    requires d.command == s.deliveries[k].command && d.status != Pending && id in s.commands
    ensures var s' := MemoryRecord(s, k, d, now).0;
            id in s'.commands && Consistent(s'.commands[id], StatesOf(s'.deliveries, id))
  {
    var ds := s.deliveries[k := d];
    if id == d.command {
      CompletedStates(s.deliveries, k, d);
      ReviewedOne(s.commands[id], StatesOf(ds, id), now, StateOf(d));
    } else {
      StatesElsewhere(s.deliveries, k, d, id);
      RecordElsewhere(s, k, d, now, id);
    }
  }

  lemma RecordConsistent(s: Store, k: nat, d: Delivery, now: Time)
    requires Known(s.commands, s.deliveries) && AllConsistent(s) && k < |s.deliveries|
    requires d.command == s.deliveries[k].command && d.status != Pending
    ensures AllConsistent(MemoryRecord(s, k, d, now).0)
  {
    forall id | id in s.commands
      ensures var s' := MemoryRecord(s, k, d, now).0; Consistent(s'.commands[id], StatesOf(s'.deliveries, id))
    {
      RecordedOne(s, k, d, now, id);
    }
  }

  lemma CompleteConsistent(s: Store, instance: string, id: CommandId, completion: Completion, now: Time)
    requires Sound(s) && AllConsistent(s)
    ensures AllConsistent(MemoryComplete(s, instance, id, completion, now).0)
  {
    var k := Find(s.deliveries, id, instance, 0);
    if k.None? || s.deliveries[k.value].status != Running {
      assert MemoryComplete(s, instance, id, completion, now).0 == s;
    } else {
      var d := Finished(s.deliveries[k.value], completion);
      RecordConsistent(s, k.value, d, now);
      assert MemoryComplete(s, instance, id, completion, now) == MemoryRecord(s, k.value, d, now);
    }
  }

  lemma StepConsistent(s: Store, op: Op)
    requires Sound(s) && AllConsistent(s) && Fresh(s, op)
    ensures AllConsistent(MemoryStep(s, op).0)
  {
    match op
    case Enqueue(_, _, _, _, direct, groups, groupIds, _) =>
      var r := Resolved(direct, groups, groupIds);
      if r.Ok? && r.value != [] {
        SaveConsistent(s, NewCommand(op, r.value), r.value);
      }
    case Poll(instance, now) => AssignConsistent(s, instance, now);
    case Complete(instance, id, completion, now) => CompleteConsistent(s, instance, id, completion, now);
  }

  /** At all times a command is pending while all its deliveries are, else has their aggregate status,
      and its result is the one its deliveries give. */
  lemma {:induction false} AlwaysConsistent(ops: seq<Op>)
    requires FreshRun(EMPTY, ops)
    ensures AllConsistent(MemoryRun(EMPTY, ops).0)
    decreases |ops|
  {
    if ops != [] {
      AlwaysConsistent(ops[..|ops| - 1]);
      MemoryRunSound(ops[..|ops| - 1]);
      StepConsistent(MemoryRun(EMPTY, ops[..|ops| - 1]).0, ops[|ops| - 1]);
    }
  }

  lemma TerminalIsClosed(c: Command, states: seq<DeliveryState>, s: DeliveryState)
    requires Consistent(c, states) && Terminal(c.status) && s in states
    ensures s.status != Pending && s.status != Running
  {
  }

  /** No delivery of a command in a terminal status is open. */
  lemma NoneOpen(s: Store, id: CommandId, k: nat)
    requires AllConsistent(s) && id in s.commands && Terminal(s.commands[id].status)
    requires k < |s.deliveries| && s.deliveries[k].command == id
    ensures s.deliveries[k].status != Pending && s.deliveries[k].status != Running
  {
    StatesMeaning(s.deliveries, id);
    TerminalIsClosed(s.commands[id], StatesOf(s.deliveries, id), StateOf(s.deliveries[k]));
  }

  /** A command is left as it was, every field of it. */
  predicate Untouched(s: Store, s': Store, id: CommandId) {
    id in s.commands && id in s'.commands && s'.commands[id] == s.commands[id]
  }

  /** Assigning touches the command of the first awaiting delivery only. */
  lemma AssignElsewhere(s: Store, instance: string, now: Time, id: CommandId)
    requires id in s.commands
    requires var k := FirstAwaiting(s.deliveries, instance, 0); k.Some? ==> s.deliveries[k.value].command != id
    ensures Untouched(s, MemoryAssign(s, instance, now).0, id)
  {
    var commands := MemoryAssign(s, instance, now).0.commands;
    match FirstAwaiting(s.deliveries, instance, 0)
    case None =>
    case Some(k) =>
      var other := s.deliveries[k].command;
      assert commands == s.commands || (other in commands && commands == s.commands[other := commands[other]]);
  }

  lemma TerminalNotAssigned(s: Store, instance: string, now: Time, id: CommandId)
    requires AllConsistent(s) && id in s.commands && Terminal(s.commands[id].status)
    ensures Untouched(s, MemoryAssign(s, instance, now).0, id)
  {
    var k := FirstAwaiting(s.deliveries, instance, 0);
    if k.Some? && s.deliveries[k.value].command == id {
      NoneOpen(s, id, k.value);
    }
    AssignElsewhere(s, instance, now, id);
  }

  lemma RecordElsewhere(s: Store, k: nat, d: Delivery, now: Time, id: CommandId)
    requires k < |s.deliveries| && d.command != id && id in s.commands
    ensures Untouched(s, MemoryRecord(s, k, d, now).0, id)
  {
  }

  lemma TerminalNotCompleted(s: Store, instance: string, other: CommandId, completion: Completion, now: Time, id: CommandId)
    requires Sound(s) && AllConsistent(s) && id in s.commands && Terminal(s.commands[id].status)
    ensures Untouched(s, MemoryComplete(s, instance, other, completion, now).0, id)
  {
    var k := Find(s.deliveries, other, instance, 0);
    if k.Some? && other == id {
      NoneOpen(s, id, k.value);
    }
    if k.None? || s.deliveries[k.value].status != Running {
      assert MemoryComplete(s, instance, other, completion, now).0 == s;
    } else {
      RecordElsewhere(s, k.value, Finished(s.deliveries[k.value], completion), now, id);
    }
  }

  lemma EnqueueElsewhere(s: Store, op: Op, id: CommandId)
    requires op.Enqueue? && Fresh(s, op) && id in s.commands
    ensures Untouched(s, MemoryStep(s, op).0, id)
  {
    var s' := MemoryStep(s, op).0;
    assert s'.commands == s.commands || exists c: Command :: c.id == op.id && s'.commands == s.commands[op.id := c];
  }

  /** A command in a terminal status is never changed again. */
  lemma TerminalStays(s: Store, op: Op, id: CommandId)
    requires Sound(s) && AllConsistent(s) && Fresh(s, op)
    requires id in s.commands && Terminal(s.commands[id].status)
    ensures Untouched(s, MemoryStep(s, op).0, id)
  {
    match op
    case Enqueue(_, _, _, _, _, _, _, _) => EnqueueElsewhere(s, op, id);
    case Poll(instance, now) =>
      TerminalNotAssigned(s, instance, now, id);
      assert MemoryStep(s, op).0 == MemoryAssign(s, instance, now).0;
    case Complete(instance, other, completion, now) =>
      TerminalNotCompleted(s, instance, other, completion, now, id);
      assert MemoryStep(s, op).0 == MemoryComplete(s, instance, other, completion, now).0;
  }

  /** Over every run: once terminal, a command keeps its status and result for good. */
  lemma {:induction false} TerminalForever(ops: seq<Op>, n: nat, id: CommandId)
    requires FreshRun(EMPTY, ops) && n <= |ops|
    requires var s := MemoryRun(EMPTY, ops[..n]).0; id in s.commands && Terminal(s.commands[id].status)
    ensures Untouched(MemoryRun(EMPTY, ops[..n]).0, MemoryRun(EMPTY, ops).0, id)
    decreases |ops|
  {
    if n < |ops| {
      var before := ops[..|ops| - 1];
      assert before[..n] == ops[..n];
      TerminalForever(before, n, id);
      MemoryRunSound(before);
      AlwaysConsistent(before);
      TerminalStays(MemoryRun(EMPTY, before).0, ops[|ops| - 1], id);
    } else {
      assert ops[..n] == ops;
    }
  }

  // ---- the order of handing out ----

  /** The commands with a delivery to an instance, in table order. */
  function EnqueuedFor(ds: seq<Delivery>, instance: string): seq<CommandId> {
    if ds == [] then []
    else
      var last := ds[|ds| - 1];
      EnqueuedFor(ds[..|ds| - 1], instance) + (if last.target == instance then [last.command] else [])
  }

  /** The commands whose delivery to an instance is no longer pending, in the same order. */
  function HandedTo(ds: seq<Delivery>, instance: string): seq<CommandId> {
    if ds == [] then []
    else
      var last := ds[|ds| - 1];
      HandedTo(ds[..|ds| - 1], instance) + (if last.target == instance && last.status != Pending then [last.command] else [])
  }

  /** Per instance, nothing is handed out before what was enqueued earlier. */
  ghost predicate FirstComeFirstServed(ds: seq<Delivery>) {
    forall i, j :: 0 <= i < j < |ds| && ds[i].target == ds[j].target && ds[j].status != Pending ==> ds[i].status != Pending
  }

  lemma {:induction false} HandedNone(ds: seq<Delivery>, instance: string)
    requires forall i :: 0 <= i < |ds| && ds[i].target == instance ==> ds[i].status == Pending
    ensures HandedTo(ds, instance) == []
  {
    if ds != [] {
      HandedNone(ds[..|ds| - 1], instance);
    }
  }

  lemma {:induction false} HandedIsPrefix(ds: seq<Delivery>, instance: string)
    requires FirstComeFirstServed(ds)
    ensures HandedTo(ds, instance) <= EnqueuedFor(ds, instance)
    ensures (forall i :: 0 <= i < |ds| && ds[i].target == instance ==> ds[i].status != Pending)
            ==> HandedTo(ds, instance) == EnqueuedFor(ds, instance)
  {
    if ds != [] {
      var n := |ds| - 1;
      HandedIsPrefix(ds[..n], instance);
      if ds[n].target == instance && ds[n].status != Pending {
        assert forall i :: 0 <= i < n && ds[i].target == instance ==> ds[i].status != Pending;
        assert HandedTo(ds[..n], instance) == EnqueuedFor(ds[..n], instance);
      }
    }
  }

  lemma {:induction false} EnqueuedMeaning(ds: seq<Delivery>, instance: string)
    ensures forall id :: id in EnqueuedFor(ds, instance) <==> exists i :: 0 <= i < |ds| && Addresses(ds[i], id, instance)
  {
    if ds != [] {
      var n := |ds| - 1;
      EnqueuedMeaning(ds[..n], instance);
      forall id
        ensures id in EnqueuedFor(ds, instance) <==> exists i :: 0 <= i < |ds| && Addresses(ds[i], id, instance)
      {
        if i :| 0 <= i < n && Addresses(ds[i], id, instance) {
          assert Addresses(ds[..n][i], id, instance);
        }
        if i :| 0 <= i < n && Addresses(ds[..n][i], id, instance) {
          assert Addresses(ds[i], id, instance);
        }
      }
    }
  }

  /** With unique keys, no command is enqueued twice for an instance. */
  lemma {:induction false} EnqueuedOnce(ds: seq<Delivery>, instance: string)
    requires Keyed(ds)
    ensures forall i, j :: 0 <= i < j < |EnqueuedFor(ds, instance)| ==> EnqueuedFor(ds, instance)[i] != EnqueuedFor(ds, instance)[j]
  {
    if ds != [] {
      var n := |ds| - 1;
      EnqueuedOnce(ds[..n], instance);
      EnqueuedMeaning(ds[..n], instance);
      if ds[n].target == instance {
        forall i | 0 <= i < n ensures !Addresses(ds[..n][i], ds[n].command, instance) {
          assert ds[..n][i] == ds[i];
        }
        var before := EnqueuedFor(ds[..n], instance);
        assert ds[n].command !in before;
        assert forall i :: 0 <= i < |before| ==> before[i] in before;
      }
    }
  }

  /** Changing one delivery that stays handed out, or stays with its instance pending, moves nothing. */
  lemma {:induction false} HandedUpdate(ds: seq<Delivery>, k: nat, d: Delivery, instance: string)
    requires k < |ds| && d.target == ds[k].target && d.command == ds[k].command
    requires d.target == instance ==> (d.status == Pending <==> ds[k].status == Pending)
    ensures HandedTo(ds[k := d], instance) == HandedTo(ds, instance)
  {
    var n := |ds| - 1;
    if k < n {
      assert ds[k := d][..n] == ds[..n][k := d];
      HandedUpdate(ds[..n], k, d, instance);
    } else {
      assert ds[k := d][..n] == ds[..n];
    }
  }

  /** Giving out the first awaiting delivery appends its command to what the instance was handed. */
  lemma {:induction false} HandedGrows(ds: seq<Delivery>, k: nat, d: Delivery, instance: string)
    requires k < |ds| && Awaits(ds[k], instance) && FirstComeFirstServed(ds)
    requires d.target == instance && d.command == ds[k].command && d.status != Pending
    ensures HandedTo(ds[k := d], instance) == HandedTo(ds, instance) + [ds[k].command]
  {
    var n := |ds| - 1;
    if k < n {
      assert ds[k := d][..n] == ds[..n][k := d];
      HandedGrows(ds[..n], k, d, instance);
    } else {
      assert ds[k := d][..n] == ds[..n];
    }
  }

  lemma {:induction false} HandedAppend(ds: seq<Delivery>, more: seq<Delivery>, instance: string)
    requires forall i :: 0 <= i < |more| ==> more[i].status == Pending
    ensures HandedTo(ds + more, instance) == HandedTo(ds, instance)
    decreases |more|
  {
    if more == [] {
      assert ds + more == ds;
    } else {
      var n := |more| - 1;
      assert (ds + more)[..|ds + more| - 1] == ds + more[..n];
      HandedAppend(ds, more[..n], instance);
    }
  }

  lemma StepKeepsOrder(s: Store, op: Op)
    requires Sound(s) && FirstComeFirstServed(s.deliveries) && Fresh(s, op)
    ensures FirstComeFirstServed(MemoryStep(s, op).0.deliveries)
  {
    if op.Enqueue? {
      var r := Resolved(op.direct, op.groups, op.groupIds);
      if r.Ok? && r.value != [] {
        var ds := MemoryStep(s, op).0.deliveries;
        assert forall i :: |s.deliveries| <= i < |ds| ==> ds[i].status == Pending;
      }
    }
  }

  /** The command a reply hands to an instance, if any. */
  function GivenIn(op: Op, reply: Reply, instance: string): seq<CommandId> {
    if op.Poll? && op.instance == instance && reply.Polled? && reply.assignment.Some? then [reply.assignment.value.command] else []
  }

  lemma StepHands(s: Store, op: Op, instance: string)
    requires Sound(s) && FirstComeFirstServed(s.deliveries) && Fresh(s, op)
    ensures var (s', reply) := MemoryStep(s, op);
            HandedTo(s'.deliveries, instance) == HandedTo(s.deliveries, instance) + GivenIn(op, reply, instance)
  {
    var ds := s.deliveries;
    match op
    case Enqueue(_, _, _, _, direct, groups, groupIds, _) =>
      var r := Resolved(direct, groups, groupIds);
      if r.Ok? && r.value != [] {
        HandedAppend(ds, seq(|r.value|, i requires 0 <= i < |r.value| => NewDelivery(op.id, r.value[i])), instance);
      }
    case Poll(i, now) =>
      var k := FirstAwaiting(ds, i, 0);
      if k.Some? {
        if i == instance {
          HandedGrows(ds, k.value, HandedOut(ds[k.value], now), instance);
        } else {
          HandedUpdate(ds, k.value, HandedOut(ds[k.value], now), instance);
        }
      }
    case Complete(i, id, completion, now) =>
      var k := Find(ds, id, i, 0);
      if k.Some? && ds[k.value].status == Running {
        HandedUpdate(ds, k.value, Finished(ds[k.value], completion), instance);
      }
  }

  /** The commands a run handed to an instance, in the order of its polls. */
  function Given(ops: seq<Op>, replies: seq<Reply>, instance: string): seq<CommandId>
    requires |ops| == |replies|
    decreases |ops|
  {
    if ops == [] then []
    else
      var n := |ops| - 1;
      Given(ops[..n], replies[..n], instance) + GivenIn(ops[n], replies[n], instance)
  }

  /** Whether a call enqueues a command for an instance: it names targets, and the instance is one. */
  predicate EnqueuesFor(op: Op, instance: string) {
    op.Enqueue? && Resolved(op.direct, op.groups, op.groupIds).Ok? && instance in Resolved(op.direct, op.groups, op.groupIds).value
  }

  /** The commands a run of calls enqueued for an instance, in order. */
  function Enqueued(ops: seq<Op>, instance: string): seq<CommandId> {
    if ops == [] then []
    else
      var last := ops[|ops| - 1];
      Enqueued(ops[..|ops| - 1], instance) + (if EnqueuesFor(last, instance) then [last.id] else [])
  }

  lemma {:induction false} EnqueuedUpdate(ds: seq<Delivery>, k: nat, d: Delivery, instance: string)
    requires k < |ds| && d.target == ds[k].target && d.command == ds[k].command
    ensures EnqueuedFor(ds[k := d], instance) == EnqueuedFor(ds, instance)
  {
    var n := |ds| - 1;
    if k < n {
      assert ds[k := d][..n] == ds[..n][k := d];
      EnqueuedUpdate(ds[..n], k, d, instance);
    } else {
      assert ds[k := d][..n] == ds[..n];
    }
  }

  /** New deliveries of a command add it once, for the instances among its targets. */
  lemma {:induction false} EnqueuedAppend(ds: seq<Delivery>, id: CommandId, targets: seq<string>, n: nat, instance: string)
    requires NoRepeats(targets) && n <= |targets|
    ensures var added := seq(n, i requires 0 <= i < n => NewDelivery(id, targets[i]));
            EnqueuedFor(ds + added, instance)
            == EnqueuedFor(ds, instance) + (if instance in targets[..n] then [id] else [])
  {
    var added := seq(n, i requires 0 <= i < n => NewDelivery(id, targets[i]));
    if n > 0 {
      var before := seq(n - 1, i requires 0 <= i < n - 1 => NewDelivery(id, targets[i]));
      assert (ds + added)[..|ds + added| - 1] == ds + before;
      EnqueuedAppend(ds, id, targets, n - 1, instance);
      assert targets[n - 1] !in targets[..n - 1];
      assert targets[..n] == targets[..n - 1] + [targets[n - 1]];
    } else {
      assert ds + added == ds;
    }
  }

  /** A call adds to the deliveries of an instance exactly what it enqueues for it. */
  lemma StepEnqueues(s: Store, op: Op, instance: string)
    requires Sound(s) && Fresh(s, op)
    ensures EnqueuedFor(MemoryStep(s, op).0.deliveries, instance)
            == EnqueuedFor(s.deliveries, instance) + (if EnqueuesFor(op, instance) then [op.id] else [])
  {
    var ds := s.deliveries;
    match op
    case Enqueue(id, _, _, _, direct, groups, groupIds, _) =>
      var r := Resolved(direct, groups, groupIds);
      if r.Ok? {
        DeduplicatedMeaning(Deduplicated(direct) + GroupMembers(groups, groupIds).value);
        EnqueuedAppend(ds, id, r.value, |r.value|, instance);
        assert r.value[..|r.value|] == r.value;
      }
    case Poll(i, now) =>
      var k := FirstAwaiting(ds, i, 0);
      if k.Some? {
        EnqueuedUpdate(ds, k.value, HandedOut(ds[k.value], now), instance);
      }
    case Complete(i, id, completion, now) =>
      var k := Find(ds, id, i, 0);
      if k.Some? && ds[k.value].status == Running {
        EnqueuedUpdate(ds, k.value, Finished(ds[k.value], completion), instance);
      }
  }

  /** After every run the deliveries to an instance are those of the commands enqueued for it. */
  lemma {:induction false} DeliveriesAreEnqueued(ops: seq<Op>, instance: string)
    requires FreshRun(EMPTY, ops)
    ensures EnqueuedFor(MemoryRun(EMPTY, ops).0.deliveries, instance) == Enqueued(ops, instance)
    decreases |ops|
  {
    if ops != [] {
      var before := ops[..|ops| - 1];
      DeliveriesAreEnqueued(before, instance);
      MemoryRunSound(before);
      StepEnqueues(MemoryRun(EMPTY, before).0, ops[|ops| - 1], instance);
    }
  }

  /** Over every run, what an instance was handed is what its deliveries say it was handed. */
  lemma {:induction false} GivenIsHanded(ops: seq<Op>, instance: string)
    requires FreshRun(EMPTY, ops)
    ensures var (s, replies) := MemoryRun(EMPTY, ops);
            && FirstComeFirstServed(s.deliveries) && |replies| == |ops|
            && Given(ops, replies, instance) == HandedTo(s.deliveries, instance)
    decreases |ops|
  {
    var (s, replies) := MemoryRun(EMPTY, ops);
    if ops != [] {
      var n := |ops| - 1;
      GivenIsHanded(ops[..n], instance);
      MemoryRunSound(ops[..n]);
      var t := MemoryRun(EMPTY, ops[..n]).0;
      StepKeepsOrder(t, ops[n]);
      StepHands(t, ops[n], instance);
      assert replies[..n] == MemoryRun(EMPTY, ops[..n]).1;
    }
  }

  /** Over every run, the commands an instance was handed by its polls are a prefix of those the calls
      enqueued for it, in order, with no command twice. */
  lemma HandedInOrder(ops: seq<Op>, instance: string)
    requires FreshRun(EMPTY, ops)
    ensures var replies, enqueued := MemoryRun(EMPTY, ops).1, Enqueued(ops, instance);
            && |replies| == |ops| && Given(ops, replies, instance) <= enqueued
            && forall i, j :: 0 <= i < j < |enqueued| ==> enqueued[i] != enqueued[j]
  {
    var ds := MemoryRun(EMPTY, ops).0.deliveries;
    MemoryRunSound(ops);
    GivenIsHanded(ops, instance);
    DeliveriesAreEnqueued(ops, instance);
    HandedIsPrefix(ds, instance);
    EnqueuedOnce(ds, instance);
  }

  // ---- work left ----

  function Weight(d: Delivery): nat {
    if d.status == Pending then 2 else if d.status == Running then 1 else 0
  }

  /** Twice the pending plus the running deliveries. */
  function WorkLeft(ds: seq<Delivery>): nat {
    if ds == [] then 0 else WorkLeft(ds[..|ds| - 1]) + Weight(ds[|ds| - 1])
  }

  lemma {:induction false} WorkUpdate(ds: seq<Delivery>, k: nat, d: Delivery)
    requires k < |ds|
    ensures WorkLeft(ds[k := d]) + Weight(ds[k]) == WorkLeft(ds) + Weight(d)
  {
    var n := |ds| - 1;
    if k < n {
      assert ds[k := d][..n] == ds[..n][k := d];
      WorkUpdate(ds[..n], k, d);
    } else {
      assert ds[k := d][..n] == ds[..n];
    }
  }

  /** Every assignment and every accepted completion leaves one unit of work less; a poll without an
      assignment or a refused completion leaves the deliveries as they were. */
  lemma WorkDecreases(s: Store, op: Op)
    requires Sound(s) && !op.Enqueue?
    ensures var (s', reply) := MemoryStep(s, op);
            if (reply.Polled? && reply.assignment.Some?) || reply.Recorded?
            then WorkLeft(s'.deliveries) == WorkLeft(s.deliveries) - 1
            else s' == s
  {
    var ds := s.deliveries;
    match op
    case Poll(i, now) =>
      var k := FirstAwaiting(ds, i, 0);
      if k.Some? {
        WorkUpdate(ds, k.value, HandedOut(ds[k.value], now));
      }
    case Complete(i, id, completion, now) =>
      var k := Find(ds, id, i, 0);
      if k.Some? && ds[k.value].status == Running {
        WorkUpdate(ds, k.value, Finished(ds[k.value], completion));
      }
  }
}
