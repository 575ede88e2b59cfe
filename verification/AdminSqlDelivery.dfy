/** What holds of the deliveries of the in-memory store holds of those of the SQL store. */
module AdminSqlDelivery {
  import opened Wrappers
  import opened AdminServer
  import opened AdminRefinement
  import opened AdminDelivery

  /** The status of a command is as its deliveries determine it, and so is its result but for the order
      of the targets. */
  ghost predicate ConsistentInSql(c: Command, states: seq<DeliveryState>) {
    && c.status == (if forall s <- states :: s.status == Pending then Pending else Aggregate(states))
    && SameResult(ResultFrom(c.request.kind, states), c.result)
  }

  lemma SqlAlwaysConsistent(ops: seq<Op>, id: CommandId)
    requires FreshRun(EMPTY, ops) && id in SqlRun(EMPTY, ops).0.commands
    ensures var q := SqlRun(EMPTY, ops).0; ConsistentInSql(q.commands[id], StatesOf(q.deliveries, id))
  {
    var m, q := MemoryRun(EMPTY, ops).0, SqlRun(EMPTY, ops).0;
    StoresRelated(ops);
    AlwaysConsistent(ops);
    assert SameCommand(m.commands[id], q.commands[id]);
    assert Consistent(m.commands[id], StatesOf(m.deliveries, id));
  }

  /** Two related stores agree on which commands are terminal, and none of their deliveries is open. */
  lemma NoneOpenInSql(m: Store, q: Store, id: CommandId, k: nat)
    requires AllConsistent(m) && Related(m, q) && id in q.commands && Terminal(q.commands[id].status)
    requires k < |q.deliveries| && q.deliveries[k].command == id
    ensures q.deliveries[k].status != Pending && q.deliveries[k].status != Running
  {
    assert SameCommand(m.commands[id], q.commands[id]);
    NoneOpen(m, id, k);
  }

  lemma OldestIsOpen(m: Store, q: Store, instance: string, id: CommandId)
    requires Sound(m) && AllConsistent(m) && Related(m, q)
    requires id in q.commands && Terminal(q.commands[id].status)
    ensures OldestAwaiting(q.commands, q.deliveries, instance) != Some(id)
  {
    SameTimes(m, q);
    OldestSame(m.commands, q.commands, m.deliveries, instance);
    OldestIsFirst(m.commands, m.deliveries, instance);
    var k := FirstAwaiting(m.deliveries, instance, 0);
    if k.Some? && m.deliveries[k.value].command == id {
      NoneOpenInSql(m, q, id, k.value);
    }
  }

  lemma SameTimes(m: Store, q: Store)
    requires Related(m, q)
    ensures forall id <- m.commands :: m.commands[id].createdAt == q.commands[id].createdAt
  {
    forall id | id in m.commands ensures m.commands[id].createdAt == q.commands[id].createdAt {
      assert SameCommand(m.commands[id], q.commands[id]);
    }
  }

  /** Assigning touches the oldest awaiting command only. */
  lemma SqlAssignElsewhere(q: Store, instance: string, now: Time, id: CommandId)
    requires id in q.commands && OldestAwaiting(q.commands, q.deliveries, instance) != Some(id)
    ensures Untouched(q, SqlAssign(q, instance, now).0, id)
  {
    var commands := SqlAssign(q, instance, now).0.commands;
    match OldestAwaiting(q.commands, q.deliveries, instance)
    case None =>
    case Some(other) =>
      assert commands == q.commands[other := q.commands[other].(status := Running, updatedAt := now)];
  }

  lemma SqlTerminalNotAssigned(m: Store, q: Store, instance: string, now: Time, id: CommandId)
    requires Sound(m) && AllConsistent(m) && Related(m, q)
    requires id in q.commands && Terminal(q.commands[id].status)
    ensures Untouched(q, SqlAssign(q, instance, now).0, id)
  {
    OldestIsOpen(m, q, instance, id);
    SqlAssignElsewhere(q, instance, now, id);
  }

  /** Completing touches the command it names only. */
  lemma SqlCompleteElsewhere(q: Store, instance: string, other: CommandId, completion: Completion, now: Time, id: CommandId)
    requires other != id && id in q.commands
    ensures Untouched(q, SqlComplete(q, instance, other, completion, now).0, id)
  {
    var commands := SqlComplete(q, instance, other, completion, now).0.commands;
    assert commands == q.commands || (other in commands && commands == q.commands[other := commands[other]]);
  }

  lemma SqlTerminalNotCompleted(m: Store, q: Store, instance: string, completion: Completion, now: Time, id: CommandId)
    requires AllConsistent(m) && Related(m, q)
    requires id in q.commands && Terminal(q.commands[id].status)
    ensures SqlComplete(q, instance, id, completion, now).0 == q
  {
    var k := Find(q.deliveries, id, instance, 0);
    if k.Some? {
      NoneOpenInSql(m, q, id, k.value);
    }
  }

  lemma SqlEnqueueElsewhere(q: Store, op: Op, id: CommandId)
    requires op.Enqueue? && id in q.commands
    ensures Untouched(q, SqlStep(q, op).0, id)
  {
    var commands := SqlStep(q, op).0.commands;
    assert commands == q.commands || (op.id !in q.commands && op.id in commands && commands == q.commands[op.id := commands[op.id]]);
  }

  /** No call changes a command in a terminal status. */
  lemma SqlTerminalStays(m: Store, q: Store, op: Op, id: CommandId)
    requires Sound(m) && AllConsistent(m) && Related(m, q)
    requires id in q.commands && Terminal(q.commands[id].status)
    ensures Untouched(q, SqlStep(q, op).0, id)
  {
    if op.Enqueue? {
      SqlEnqueueElsewhere(q, op, id);
    } else if op.Poll? {
      SqlTerminalNotAssigned(m, q, op.instance, op.now, id);
      assert SqlStep(q, op).0 == SqlAssign(q, op.instance, op.now).0;
    } else {
      if op.id == id {
        SqlTerminalNotCompleted(m, q, op.instance, op.completion, op.now, id);
      } else {
        SqlCompleteElsewhere(q, op.instance, op.id, op.completion, op.now, id);
      }
      assert SqlStep(q, op).0 == SqlComplete(q, op.instance, op.id, op.completion, op.now).0;
    }
  }

  /** Over every run of the SQL store: once terminal, a command is never changed again. */
  lemma {:induction false} SqlTerminalForever(ops: seq<Op>, n: nat, id: CommandId)
    requires FreshRun(EMPTY, ops) && n <= |ops|
    requires var s := SqlRun(EMPTY, ops[..n]).0; id in s.commands && Terminal(s.commands[id].status)
    ensures Untouched(SqlRun(EMPTY, ops[..n]).0, SqlRun(EMPTY, ops).0, id)
    decreases |ops|
  {
    if n < |ops| {
      var before := ops[..|ops| - 1];
      assert before[..n] == ops[..n];
      SqlTerminalForever(before, n, id);
      StoresRelated(before);
      MemoryRunSound(before);
      AlwaysConsistent(before);
      SqlTerminalStays(MemoryRun(EMPTY, before).0, SqlRun(EMPTY, before).0, ops[|ops| - 1], id);
    } else {
      assert ops[..n] == ops;
    }
  }

  /** Both stores hand out the same commands. */
  lemma {:induction false} GivenSame(ops: seq<Op>, instance: string)
    requires FreshRun(EMPTY, ops)
    ensures |MemoryRun(EMPTY, ops).1| == |SqlRun(EMPTY, ops).1| == |ops|
    ensures Given(ops, SqlRun(EMPTY, ops).1, instance) == Given(ops, MemoryRun(EMPTY, ops).1, instance)
    decreases |ops|
  {
    if ops != [] {
      var n := |ops| - 1;
      var before := ops[..n];
      GivenSame(before, instance);
      SqlRefinesMemory(ops, n);
      assert MemoryRun(EMPTY, ops).1[..n] == MemoryRun(EMPTY, before).1;
      assert SqlRun(EMPTY, ops).1[..n] == SqlRun(EMPTY, before).1;
    }
  }

  /** Over every run of the SQL store, the commands an instance was handed by its polls are a prefix of
      those the calls enqueued for it, in order, with no command twice. */
  lemma SqlHandedInOrder(ops: seq<Op>, instance: string)
    requires FreshRun(EMPTY, ops)
    ensures var replies, enqueued := SqlRun(EMPTY, ops).1, Enqueued(ops, instance);
            && |replies| == |ops| && Given(ops, replies, instance) <= enqueued
            && forall i, j :: 0 <= i < j < |enqueued| ==> enqueued[i] != enqueued[j]
  {
    GivenSame(ops, instance);
    HandedInOrder(ops, instance);
  }

  /** Every assignment and every accepted completion of the SQL store leaves one unit of work less;
      every other poll or completion leaves its deliveries as they were. */
  lemma SqlWorkDecreases(ops: seq<Op>, op: Op)
    requires FreshRun(EMPTY, ops) && !op.Enqueue?
    ensures var q := SqlRun(EMPTY, ops).0; var (q', reply) := SqlStep(q, op);
            if (reply.Polled? && reply.assignment.Some?) || reply.Recorded?
            then WorkLeft(q'.deliveries) == WorkLeft(q.deliveries) - 1
            else q'.deliveries == q.deliveries
  {
    var m, q := MemoryRun(EMPTY, ops).0, SqlRun(EMPTY, ops).0;
    StoresRelated(ops);
    MemoryRunSound(ops);
    StepAgrees(m, q, op);
    WorkDecreases(m, op);
  }
}
