/** The SQL store behaves as the in-memory one over every sequence of calls. */
module AdminRefinement {
  import opened Wrappers
  import opened Sequences
  import Tokenizer
  import opened AdminServer

  /** A call of the admin server; `id` and `now` are the new id and the time of the call. */
  datatype Op =
    | Enqueue(id: CommandId, source: string, kind: nat, payload: string, direct: seq<string>,
              groups: map<nat, seq<string>>, groupIds: seq<nat>, now: Time)
    | Poll(instance: string, now: Time)
    | Complete(instance: string, id: CommandId, completion: Completion, now: Time)

  datatype Reply =
    | Queued(targets: seq<string>)
    | Polled(assignment: Option<Assignment>, pending: nat)
    | Recorded(command: Command)
    | Refused(error: AdminError)

  function NewCommand(op: Op, targets: seq<string>): Command
    requires op.Enqueue?
  {
    Command(op.id, op.source, Request(op.kind, targets, op.payload), Pending, None, op.now, op.now)
  }

  /** A new id, and a time later than the creation of every command. */
  ghost predicate Fresh(s: Store, op: Op) {
    op.Enqueue? ==> op.id !in s.commands && forall id <- s.commands :: s.commands[id].createdAt < op.now
  }

  function ReplyToPoll(r: Result<Option<Assignment>, AdminError>, pending: nat): Reply {
    match r case Err(e) => Refused(e) case Ok(a) => Polled(a, pending)
  }

  function ReplyToComplete(r: Result<Command, AdminError>): Reply {
    match r case Err(e) => Refused(e) case Ok(c) => Recorded(c)
  }

  function MemoryStep(s: Store, op: Op): (Store, Reply) {
    match op
    case Enqueue(_, _, _, _, direct, groups, groupIds, _) =>
      (match Resolved(direct, groups, groupIds)
       case Err(e) => (s, Refused(e))
       case Ok(targets) =>
         if targets == [] then (s, Refused(NoBatchTargets))
         else (MemorySave(s, NewCommand(op, targets), targets), Queued(targets)))
    case Poll(instance, now) =>
      var (s', r) := MemoryAssign(s, instance, now);
      (s', ReplyToPoll(r, CountAwaiting(s'.deliveries, instance)))
    case Complete(instance, id, completion, now) =>
      var (s', r) := MemoryComplete(s, instance, id, completion, now);
      (s', ReplyToComplete(r))
  }

  function SqlStep(s: Store, op: Op): (Store, Reply) {
    match op
    case Enqueue(_, _, _, _, direct, groups, groupIds, _) =>
      (match Resolved(direct, groups, groupIds)
       case Err(e) => (s, Refused(e))
       case Ok(targets) =>
         if targets == [] then (s, Refused(NoBatchTargets))
         else
           var (s', r) := SqlSave(s, NewCommand(op, targets), targets);
           (s', if r.Err? then Refused(r.error) else Queued(targets)))
    case Poll(instance, now) =>
      var (s', r) := SqlAssign(s, instance, now);
      (s', ReplyToPoll(r, CountAwaiting(s'.deliveries, instance)))
    case Complete(instance, id, completion, now) =>
      var (s', r) := SqlComplete(s, instance, id, completion, now);
      (s', ReplyToComplete(r))
  }

  // ---- deduplicated targets ----

  ghost predicate NoRepeats(ids: seq<string>) {
    forall i, j :: 0 <= i < j < |ids| ==> ids[i] != ids[j]
  }

  predicate TrimsTo(ids: seq<string>, id: string) {
    exists i :: 0 <= i < |ids| && Tokenizer.Trim(ids[i]) == id
  }

  lemma TrimsToLast(ids: seq<string>, id: string)
    requires ids != []
    ensures TrimsTo(ids, id) <==> TrimsTo(ids[..|ids| - 1], id) || Tokenizer.Trim(ids[|ids| - 1]) == id
  {
    var n := |ids| - 1;
    if i :| 0 <= i < n && Tokenizer.Trim(ids[i]) == id {
      assert ids[..n][i] == ids[i];
    }
    if i :| 0 <= i < n && Tokenizer.Trim(ids[..n][i]) == id {
      assert ids[..n][i] == ids[i];
    }
  }

  /** Deduplication keeps every non-empty trimmed id, each once. */
  lemma {:induction false} DeduplicatedMeaning(ids: seq<string>)
    ensures NoRepeats(Deduplicated(ids))
    ensures forall id :: id in Deduplicated(ids) <==> id != "" && TrimsTo(ids, id)
  {
    if ids != [] {
      var n := |ids| - 1;
      DeduplicatedMeaning(ids[..n]);
      forall id ensures id in Deduplicated(ids) <==> id != "" && TrimsTo(ids, id) {
        TrimsToLast(ids, id);
        assert id in Deduplicated(ids[..n]) <==> id != "" && TrimsTo(ids[..n], id);
      }
    }
  }

  // ---- order of rows ----

  lemma TargetResultsCons(s: DeliveryState, states: seq<DeliveryState>)
    ensures multiset(TargetResults([s] + states))
            == (if TargetResultOf(s).Some? then multiset{TargetResultOf(s).value} else multiset{}) + multiset(TargetResults(states))
  {
    assert ([s] + states)[1..] == states;
  }

  lemma {:induction false} InsertPermutes(s: DeliveryState, states: seq<DeliveryState>)
    ensures multiset(InsertByTarget(s, states)) == multiset{s} + multiset(states)
  {
    if states != [] {
      InsertPermutes(s, states[1..]);
      HeadTail(states);
    }
  }

  lemma {:induction false} InsertResults(s: DeliveryState, states: seq<DeliveryState>)
    ensures multiset(TargetResults(InsertByTarget(s, states))) == multiset(TargetResults([s] + states))
  {
    if states != [] && !StringLe(s.target, states[0].target) {
      InsertResults(s, states[1..]);
      SwapResults(s, states[0], states[1..], InsertByTarget(s, states[1..]));
      HeadTail(states);
    }
  }

  lemma SwapResults(s: DeliveryState, head: DeliveryState, rest: seq<DeliveryState>, inserted: seq<DeliveryState>)
    requires multiset(TargetResults(inserted)) == multiset(TargetResults([s] + rest))
    ensures multiset(TargetResults([head] + inserted)) == multiset(TargetResults([s] + ([head] + rest)))
  {
    TargetResultsCons(s, [head] + rest);
    TargetResultsCons(s, rest);
    TargetResultsCons(head, rest);
    TargetResultsCons(head, inserted);
  }

  /** Sorting the rows of a command permutes its states and the results made of them. */
  lemma {:induction false} SortPermutes(states: seq<DeliveryState>)
    ensures multiset(SortedByTarget(states)) == multiset(states)
    ensures multiset(TargetResults(SortedByTarget(states))) == multiset(TargetResults(states))
  {
    if states != [] {
      var rest := states[1..];
      SortPermutes(rest);
      InsertPermutes(states[0], SortedByTarget(rest));
      InsertResults(states[0], SortedByTarget(rest));
      HeadTail(states);
      TargetResultsCons(states[0], rest);
      TargetResultsCons(states[0], SortedByTarget(rest));
    }
  }

  lemma SameMembers<T>(a: seq<T>, b: seq<T>)
    requires multiset(a) == multiset(b)
    ensures forall x :: x in a <==> x in b
  {
    forall x ensures x in a <==> x in b {
      assert x in a <==> x in multiset(a);
      assert x in b <==> x in multiset(b);
    }
  }

  /** Same results, in whatever order. */
  ghost predicate SameResult(a: Option<CommandResult>, b: Option<CommandResult>) {
    || (a == None && b == None)
    || (a.Some? && b.Some? && a.value.accepted == b.value.accepted && a.value.kind == b.value.kind
        && multiset(a.value.results) == multiset(b.value.results))
  }

  ghost predicate SameCommand(a: Command, b: Command) {
    a.(result := None) == b.(result := None) && SameResult(a.result, b.result)
  }

  lemma ResultsPermute(kind: nat, a: seq<DeliveryState>, b: seq<DeliveryState>)
    requires multiset(TargetResults(a)) == multiset(TargetResults(b))
    ensures SameResult(ResultFrom(kind, a), ResultFrom(kind, b))
  {
    var ra, rb := TargetResults(a), TargetResults(b);
    SameMembers(ra, rb);
    assert |ra| == |multiset(ra)| == |multiset(rb)| == |rb|;
  }

  lemma AggregatePermutes(a: seq<DeliveryState>, b: seq<DeliveryState>)
    requires multiset(a) == multiset(b)
    ensures Aggregate(a) == Aggregate(b)
  {
    SameMembers(a, b);
  }

  /** A command reviewed from sorted rows is the one reviewed from the rows as they are. */
  lemma ReviewedSame(c: Command, d: Command, states: seq<DeliveryState>, now: Time)
    requires SameCommand(c, d)
    ensures SameCommand(Reviewed(c, states, now), Reviewed(d, SortedByTarget(states), now))
  {
    SortPermutes(states);
    AggregatePermutes(states, SortedByTarget(states));
    ResultsPermute(c.request.kind, states, SortedByTarget(states));
  }

  // ---- the invariant of the in-memory store ----

  ghost predicate Known(commands: map<CommandId, Command>, ds: seq<Delivery>) {
    forall i :: 0 <= i < |ds| ==> ds[i].command in commands
  }

  ghost predicate InOrder(commands: map<CommandId, Command>, ds: seq<Delivery>)
    requires Known(commands, ds)
  {
    forall i, j :: 0 <= i < j < |ds| ==> commands[ds[i].command].createdAt <= commands[ds[j].command].createdAt
  }

  ghost predicate Keyed(ds: seq<Delivery>) {
    forall i, j :: 0 <= i < j < |ds| ==> ds[i].command != ds[j].command || ds[i].target != ds[j].target
  }

  ghost predicate Sound(s: Store) {
    && (forall id <- s.commands :: s.commands[id].id == id)
    && Known(s.commands, s.deliveries) && InOrder(s.commands, s.deliveries) && Keyed(s.deliveries)
  }

  /** Changing the fields of one delivery other than its key, and of one command other than its time of creation. */
  lemma SoundUpdate(s: Store, k: nat, d: Delivery, c: Command)
    requires Sound(s) && k < |s.deliveries|
    requires d.command == s.deliveries[k].command == c.id && d.target == s.deliveries[k].target
    requires c.createdAt == s.commands[c.id].createdAt
    ensures Sound(Store(s.commands[c.id := c], s.deliveries[k := d]))
  {
  }

  lemma SoundSave(s: Store, c: Command, targets: seq<string>)
    requires Sound(s) && NoRepeats(targets) && c.id !in s.commands
    requires forall id <- s.commands :: s.commands[id].createdAt < c.createdAt
    ensures Sound(MemorySave(s, c, targets))
  {
    var s' := MemorySave(s, c, targets);
    var n := |s.deliveries|;
    assert forall i :: n <= i < |s'.deliveries| ==> s'.deliveries[i] == NewDelivery(c.id, targets[i - n]);
    assert forall i :: 0 <= i < n ==> s'.deliveries[i] == s.deliveries[i];
  }

  lemma {:induction false} MemoryStepSound(s: Store, op: Op)
    requires Sound(s) && Fresh(s, op)
    ensures Sound(MemoryStep(s, op).0)
  {
    match op
    case Enqueue(_, _, _, _, direct, groups, groupIds, _) =>
      var r := Resolved(direct, groups, groupIds);
      if r.Ok? && r.value != [] {
        DeduplicatedMeaning(Deduplicated(direct) + GroupMembers(groups, groupIds).value);
        SoundSave(s, NewCommand(op, r.value), r.value);
      }
    case Poll(instance, now) =>
      var k := FirstAwaiting(s.deliveries, instance, 0);
      if k.Some? {
        var d := s.deliveries[k.value];
        SoundUpdate(s, k.value, HandedOut(d, now), s.commands[d.command].(status := Running, updatedAt := now));
      }
    case Complete(instance, id, completion, now) =>
      var k := Find(s.deliveries, id, instance, 0);
      if k.Some? && s.deliveries[k.value].status == Running {
        var d := Finished(s.deliveries[k.value], completion);
        SoundUpdate(s, k.value, d, Reviewed(s.commands[id], StatesOf(s.deliveries[k.value := d], id), now));
      }
  }

  // ---- the two stores side by side ----

  ghost predicate Related(m: Store, q: Store) {
    && m.deliveries == q.deliveries && m.commands.Keys == q.commands.Keys
    && forall id <- m.commands :: SameCommand(m.commands[id], q.commands[id])
  }

  /** Replies agree, results up to order; a completion for a command that does not exist is refused by
      both, with different errors. */
  ghost predicate SameReply(m: Store, op: Op, a: Reply, b: Reply) {
    match a
    case Recorded(c) => b.Recorded? && SameCommand(c, b.command)
    case Refused(CommandTargetNotFound(id, _)) =>
      b == (if op.Complete? && op.id !in m.commands then Refused(CommandNotFound(id)) else a)
    case _ => b == a
  }

  lemma {:induction false} InsertedAllAppends(rows: seq<Delivery>, id: CommandId, targets: seq<string>)
    requires NoRepeats(targets) && forall i :: 0 <= i < |rows| ==> rows[i].command != id
    ensures InsertedAll(rows, id, targets)
            == rows + seq(|targets|, i requires 0 <= i < |targets| => NewDelivery(id, targets[i]))
  {
    if targets != [] {
      var n := |targets| - 1;
      InsertedAllAppends(rows, id, targets[..n]);
      var before := InsertedAll(rows, id, targets[..n]);
      assert forall i :: |rows| <= i < |before| ==> before[i] == NewDelivery(id, targets[i - |rows|]);
      assert Find(before, id, targets[n], 0).None?;
    }
  }

  lemma UpdatedOne(rows: seq<Delivery>, k: nat, f: Delivery -> Delivery)
    requires Keyed(rows) && k < |rows|
    ensures Updated(rows, rows[k].command, rows[k].target, f) == rows[k := f(rows[k])]
  {
  }

  /** The join ordered by creation yields the first awaiting delivery of the table. */
  lemma {:induction false} OldestIsFirst(commands: map<CommandId, Command>, rows: seq<Delivery>, instance: string)
    requires Known(commands, rows) && InOrder(commands, rows)
    ensures OldestAwaiting(commands, rows, instance)
            == match FirstAwaiting(rows, instance, 0) case None => None case Some(k) => Some(rows[k].command)
  {
    if rows != [] {
      var n := |rows| - 1;
      var init := rows[..n];
      OldestIsFirst(commands, init, instance);
      var before, all := FirstAwaiting(init, instance, 0), FirstAwaiting(rows, instance, 0);
      assert forall j :: 0 <= j < n ==> init[j] == rows[j];
      if before.Some? {
        assert Awaits(rows[before.value], instance) && all == before;
      }
    }
  }

  /** The stores agree on the creation times, so the SQL query may be read on the in-memory commands. */
  lemma {:induction false} OldestSame(a: map<CommandId, Command>, b: map<CommandId, Command>, rows: seq<Delivery>, instance: string)
    requires a.Keys == b.Keys && forall id <- a :: a[id].createdAt == b[id].createdAt
    ensures OldestAwaiting(a, rows, instance) == OldestAwaiting(b, rows, instance)
  {
    if rows != [] {
      OldestSame(a, b, rows[..|rows| - 1], instance);
    }
  }

  lemma EnqueueAgrees(m: Store, q: Store, op: Op)
    requires op.Enqueue? && Sound(m) && Related(m, q) && Fresh(m, op)
    ensures var (m', a), (q', b) := MemoryStep(m, op), SqlStep(q, op);
            Related(m', q') && SameReply(m, op, a, b)
  {
    var r := Resolved(op.direct, op.groups, op.groupIds);
    if r.Ok? && r.value != [] {
      DeduplicatedMeaning(Deduplicated(op.direct) + GroupMembers(op.groups, op.groupIds).value);
      InsertedAllAppends(m.deliveries, op.id, r.value);
    }
  }

  lemma PollAgrees(m: Store, q: Store, op: Op)
    requires op.Poll? && Sound(m) && Related(m, q)
    ensures var (m', a), (q', b) := MemoryStep(m, op), SqlStep(q, op);
            Related(m', q') && SameReply(m, op, a, b)
  {
    OldestSame(m.commands, q.commands, m.deliveries, op.instance);
    OldestIsFirst(m.commands, m.deliveries, op.instance);
    var k := FirstAwaiting(m.deliveries, op.instance, 0);
    if k.Some? {
      UpdatedOne(m.deliveries, k.value, d => HandedOut(d, op.now));
    }
  }

  lemma CompleteAgrees(m: Store, q: Store, op: Op)
    requires op.Complete? && Sound(m) && Related(m, q)
    ensures var (m', a), (q', b) := MemoryStep(m, op), SqlStep(q, op);
            Related(m', q') && SameReply(m, op, a, b)
  {
    var k := Find(m.deliveries, op.id, op.instance, 0);
    if k.Some? && m.deliveries[k.value].status == Running {
      UpdatedOne(m.deliveries, k.value, d => Finished(d, op.completion));
      var ds := m.deliveries[k.value := Finished(m.deliveries[k.value], op.completion)];
      ReviewedSame(m.commands[op.id], q.commands[op.id], StatesOf(ds, op.id), op.now);
    }
  }

  // ---- whole runs ----

  function MemoryRun(s: Store, ops: seq<Op>): (Store, seq<Reply>)
    decreases |ops|
  {
    if ops == [] then (s, [])
    else
      var (t, replies) := MemoryRun(s, ops[..|ops| - 1]);
      var (s', reply) := MemoryStep(t, ops[|ops| - 1]);
      (s', replies + [reply])
  }

  /** Every new command gets a new id and a later time than all before it. */
  ghost predicate FreshRun(s: Store, ops: seq<Op>)
    decreases |ops|
  {
    ops != [] ==> FreshRun(s, ops[..|ops| - 1]) && Fresh(MemoryRun(s, ops[..|ops| - 1]).0, ops[|ops| - 1])
  }

  const EMPTY := Store(map[], [])

  lemma {:induction false} MemoryRunSound(ops: seq<Op>)
    requires FreshRun(EMPTY, ops)
    ensures Sound(MemoryRun(EMPTY, ops).0) && |MemoryRun(EMPTY, ops).1| == |ops|
    decreases |ops|
  {
    if ops != [] {
      MemoryRunSound(ops[..|ops| - 1]);
      MemoryStepSound(MemoryRun(EMPTY, ops[..|ops| - 1]).0, ops[|ops| - 1]);
    }
  }

  function SqlRun(s: Store, ops: seq<Op>): (Store, seq<Reply>)
    decreases |ops|
  {
    if ops == [] then (s, [])
    else
      var (t, replies) := SqlRun(s, ops[..|ops| - 1]);
      var (s', reply) := SqlStep(t, ops[|ops| - 1]);
      (s', replies + [reply])
  }

  lemma StepAgrees(m: Store, q: Store, op: Op)
    requires Sound(m) && Related(m, q) && Fresh(m, op)
    ensures var (m', a), (q', b) := MemoryStep(m, op), SqlStep(q, op);
            Related(m', q') && SameReply(m, op, a, b)
  {
    match op
    case Enqueue(_, _, _, _, _, _, _, _) => EnqueueAgrees(m, q, op);
    case Poll(_, _) => PollAgrees(m, q, op);
    case Complete(_, _, _, _) => CompleteAgrees(m, q, op);
  }

  /** Over every run from empty stores, the tables stay the same but for the order of the targets
      within a result. */
  lemma {:induction false} StoresRelated(ops: seq<Op>)
    requires FreshRun(EMPTY, ops)
    ensures Related(MemoryRun(EMPTY, ops).0, SqlRun(EMPTY, ops).0) && |SqlRun(EMPTY, ops).1| == |ops|
    decreases |ops|
  {
    if ops != [] {
      var before := ops[..|ops| - 1];
      StoresRelated(before);
      MemoryRunSound(before);
      StepAgrees(MemoryRun(EMPTY, before).0, SqlRun(EMPTY, before).0, ops[|ops| - 1]);
    }
  }

  /** Over every run from empty stores, each SQL reply matches the in-memory one, and the tables stay
      the same but for the order of the targets within a result. */
  lemma {:induction false} SqlRefinesMemory(ops: seq<Op>, i: nat)
    requires FreshRun(EMPTY, ops) && i < |ops|
    ensures Related(MemoryRun(EMPTY, ops).0, SqlRun(EMPTY, ops).0)
    ensures |MemoryRun(EMPTY, ops).1| == |SqlRun(EMPTY, ops).1| == |ops|
    ensures SameReply(MemoryRun(EMPTY, ops[..i]).0, ops[i], MemoryRun(EMPTY, ops).1[i], SqlRun(EMPTY, ops).1[i])
    decreases |ops|
  {
    var n := |ops| - 1;
    MemoryRunSound(ops);
    MemoryRunSound(ops[..n]);
    StoresRelated(ops);
    StoresRelated(ops[..n]);
    if i < n {
      SqlRefinesMemory(ops[..n], i);
      assert ops[..n][..i] == ops[..i];
    } else {
      assert ops[..i] == ops[..n];
      StepAgrees(MemoryRun(EMPTY, ops[..n]).0, SqlRun(EMPTY, ops[..n]).0, ops[n]);
    }
  }
}
