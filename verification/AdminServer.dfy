/** Delivery of admin commands to instances, in the in-memory store and in the SQL store. */
module AdminServer {
  import opened Wrappers
  import Tokenizer

  type CommandId = nat
  type Time = nat

  datatype CommandStatus = Pending | Running | Completed | Failed | Skipped

  datatype CompletionStatus = WasCompleted | WasFailed | WasSkipped

  datatype TargetStatus = Accepted | Error | TargetSkipped

  datatype Completion = Completion(status: CompletionStatus, message: string, completedAt: Time)

  datatype Request = Request(kind: nat, targets: seq<string>, payload: string)

  datatype TargetResult = TargetResult(target: string, status: TargetStatus, message: string)

  datatype CommandResult = CommandResult(accepted: bool, kind: nat, results: seq<TargetResult>)

  datatype Command = Command(
    id: CommandId,
    source: string,
    request: Request,
    status: CommandStatus,
    result: Option<CommandResult>,
    createdAt: Time,
    updatedAt: Time)

  datatype Delivery = Delivery(
    command: CommandId,
    target: string,
    status: CommandStatus,
    assignedAt: Option<Time>,
    completedAt: Option<Time>,
    message: Option<string>)

  datatype DeliveryState = DeliveryState(target: string, status: CommandStatus, message: Option<string>)

  datatype Assignment = Assignment(command: CommandId, target: string, request: Request, assignedAt: Time)

  datatype AdminError =
    | NoBatchTargets
    | MachineGroupNotFound(group: nat)
    | CommandNotFound(command: CommandId)
    | CommandTargetNotFound(command: CommandId, target: string)
    | CommandNotRunning(command: CommandId, target: string)
    | KeyTaken(command: CommandId)

  // ---- pure helpers shared by both stores ----

  function StatusAfter(status: CompletionStatus): CommandStatus {
    match status
    case WasCompleted => Completed
    case WasFailed => Failed
    case WasSkipped => Skipped
  }

  function CompletionMessage(status: CompletionStatus, message: string): string {
    var trimmed := Tokenizer.Trim(message);
    if trimmed != "" then trimmed
    else match status
      case WasCompleted => "Comando concluido"
      case WasFailed => "Comando falhou"
      case WasSkipped => "Comando ignorado"
  }

  function Aggregate(states: seq<DeliveryState>): CommandStatus {
    if exists s <- states :: s.status == Pending || s.status == Running then Running
    else if exists s <- states :: s.status == Failed then Failed
    else if forall s <- states :: s.status == Skipped then Skipped
    else Completed
  }

  function TargetResultOf(s: DeliveryState): Option<TargetResult> {
    var message := if s.message.Some? then s.message.value else "Comando finalizado";
    match s.status
    case Completed => Some(TargetResult(s.target, Accepted, message))
    case Failed => Some(TargetResult(s.target, Error, message))
    case Skipped => Some(TargetResult(s.target, TargetSkipped, message))
    case _ => None
  }

  function TargetResults(states: seq<DeliveryState>): seq<TargetResult> {
    if states == [] then []
    else
      var r := TargetResultOf(states[0]);
      (if r.Some? then [r.value] else []) + TargetResults(states[1..])
  }

  function ResultFrom(kind: nat, states: seq<DeliveryState>): Option<CommandResult> {
    var results := TargetResults(states);
    if results == [] then None
    else Some(CommandResult(!exists r <- results :: r.status == Error, kind, results))
  }

  /** The states of a command's deliveries, in table order. */
  function StatesOf(ds: seq<Delivery>, id: CommandId): seq<DeliveryState> {
    if ds == [] then []
    else
      (if ds[0].command == id then [DeliveryState(ds[0].target, ds[0].status, ds[0].message)] else [])
      + StatesOf(ds[1..], id)
  }

  predicate Awaits(d: Delivery, instance: string) {
    d.target == instance && d.status == Pending
  }

  predicate Addresses(d: Delivery, id: CommandId, instance: string) {
    d.command == id && d.target == instance
  }

  /** Index of the first delivery from `k` on that awaits an instance. */
  function FirstAwaiting(ds: seq<Delivery>, instance: string, k: nat): (r: Option<nat>)
    requires k <= |ds|
    ensures r.Some? ==> k <= r.value < |ds| && Awaits(ds[r.value], instance)
                        && forall j :: k <= j < r.value ==> !Awaits(ds[j], instance)
    ensures r.None? ==> forall j :: k <= j < |ds| ==> !Awaits(ds[j], instance)
    decreases |ds| - k
  {
    if k == |ds| then None else if Awaits(ds[k], instance) then Some(k) else FirstAwaiting(ds, instance, k + 1)
  }

  /** Index of the first delivery from `k` on of a command to an instance. */
  function Find(ds: seq<Delivery>, id: CommandId, instance: string, k: nat): (r: Option<nat>)
    requires k <= |ds|
    ensures r.Some? ==> k <= r.value < |ds| && Addresses(ds[r.value], id, instance)
    ensures r.None? ==> forall j :: k <= j < |ds| ==> !Addresses(ds[j], id, instance)
    decreases |ds| - k
  {
    if k == |ds| then None else if Addresses(ds[k], id, instance) then Some(k) else Find(ds, id, instance, k + 1)
  }

  /** Where the deliveries that await an instance stand. */
  function AwaitingAt(ds: seq<Delivery>, instance: string): set<nat> {
    set i: nat | i < |ds| && Awaits(ds[i], instance)
  }

  /** How many deliveries await an instance. */
  function CountAwaiting(ds: seq<Delivery>, instance: string): nat {
    |AwaitingAt(ds, instance)|
  }

  lemma AwaitingGrows(ds: seq<Delivery>, instance: string, n: nat)
    requires n < |ds|
    ensures CountAwaiting(ds[..n + 1], instance)
            == CountAwaiting(ds[..n], instance) + (if Awaits(ds[n], instance) then 1 else 0)
  {
    var before, after := AwaitingAt(ds[..n], instance), AwaitingAt(ds[..n + 1], instance);
    assert after == if Awaits(ds[n], instance) then before + {n} else before;
  }

  function NewDelivery(id: CommandId, target: string): Delivery {
    Delivery(id, target, Pending, None, None, None)
  }

  function HandedOut(d: Delivery, now: Time): Delivery {
    d.(status := Running, assignedAt := Some(now))
  }

  function Finished(d: Delivery, c: Completion): Delivery {
    d.(status := StatusAfter(c.status), completedAt := Some(c.completedAt),
       message := Some(CompletionMessage(c.status, c.message)))
  }

  function AssignmentOf(c: Command, instance: string, now: Time): Assignment {
    Assignment(c.id, instance, c.request.(targets := [instance]), now)
  }

  function Reviewed(c: Command, states: seq<DeliveryState>, now: Time): Command {
    c.(status := Aggregate(states), result := ResultFrom(c.request.kind, states), updatedAt := now)
  }

  /** A store: its commands and its deliveries in the order they were inserted. */
  datatype Store = Store(commands: map<CommandId, Command>, deliveries: seq<Delivery>)

  // ---- targets of a batch ----

  /** Trimmed, without empty ids and without repetitions, in order of first appearance. */
  function Deduplicated(ids: seq<string>): seq<string> {
    if ids == [] then []
    else
      var before, id := Deduplicated(ids[..|ids| - 1]), Tokenizer.Trim(ids[|ids| - 1]);
      if id == "" || id in before then before else before + [id]
  }

  method NormalizeInstanceIds(ids: seq<string>) returns (normalized: seq<string>)
    ensures normalized == Deduplicated(ids)
  {
    normalized := [];
    assert ids[..0] == [];
    for i := 0 to |ids|
      invariant normalized == Deduplicated(ids[..i])
    {
      assert ids[..i + 1][..i] == ids[..i];
      var id := Tokenizer.Trim(ids[i]);
      if id == "" || id in normalized {
        continue;
      }
      normalized := normalized + [id];
    }
    assert ids[..|ids|] == ids;
  }

  /** The members of the groups asked for, or the first group id that does not exist. */
  function GroupMembers(groups: map<nat, seq<string>>, ids: seq<nat>): Result<seq<string>, AdminError> {
    if ids == [] then Ok([])
    else match GroupMembers(groups, ids[..|ids| - 1])
      case Err(e) => Err(e)
      case Ok(members) =>
        var id := ids[|ids| - 1];
        if id in groups then Ok(members + groups[id]) else Err(MachineGroupNotFound(id))
  }

  function Resolved(direct: seq<string>, groups: map<nat, seq<string>>, groupIds: seq<nat>): Result<seq<string>, AdminError> {
    match GroupMembers(groups, groupIds)
    case Err(e) => Err(e)
    case Ok(members) => Ok(Deduplicated(Deduplicated(direct) + members))
  }

  method ResolveBatchTargets(direct: seq<string>, groups: map<nat, seq<string>>, groupIds: seq<nat>)
    returns (r: Result<seq<string>, AdminError>)
    ensures r == Resolved(direct, groups, groupIds)
  {
    var targets := NormalizeInstanceIds(direct);
    ghost var members := [];
    assert groupIds[..0] == [];
    for i := 0 to |groupIds|
      invariant GroupMembers(groups, groupIds[..i]) == Ok(members)
      invariant targets == Deduplicated(direct) + members
    {
      assert groupIds[..i + 1][..i] == groupIds[..i];
      if groupIds[i] !in groups {
        MissingGroup(groups, groupIds, i + 1);
        return Err(MachineGroupNotFound(groupIds[i]));
      }
      members := members + groups[groupIds[i]];
      targets := targets + groups[groupIds[i]];
    }
    assert groupIds[..|groupIds|] == groupIds;
    targets := NormalizeInstanceIds(targets);
    return Ok(targets);
  }

  lemma {:induction false} MissingGroup(groups: map<nat, seq<string>>, ids: seq<nat>, n: nat)
    requires n <= |ids| && GroupMembers(groups, ids[..n]).Err?
    ensures GroupMembers(groups, ids) == GroupMembers(groups, ids[..n])
    decreases |ids|
  {
    if n < |ids| {
      var init := ids[..|ids| - 1];
      assert init[..n] == ids[..n];
      MissingGroup(groups, init, n);
    } else {
      assert ids[..n] == ids;
    }
  }

  // ---- the in-memory store ----

  function MemorySave(s: Store, c: Command, targets: seq<string>): Store {
    Store(s.commands[c.id := c], s.deliveries + seq(|targets|, i requires 0 <= i < |targets| => NewDelivery(c.id, targets[i])))
  }

  function MemoryAssign(s: Store, instance: string, now: Time): (Store, Result<Option<Assignment>, AdminError>) {
    match FirstAwaiting(s.deliveries, instance, 0)
    case None => (s, Ok(None))
    case Some(k) =>
      var id := s.deliveries[k].command;
      var ds := s.deliveries[k := HandedOut(s.deliveries[k], now)];
      if id !in s.commands then (s.(deliveries := ds), Err(CommandNotFound(id)))
      else
        var c := s.commands[id].(status := Running, updatedAt := now);
        (Store(s.commands[id := c], ds), Ok(Some(AssignmentOf(c, instance, now))))
  }

  function MemoryComplete(s: Store, instance: string, id: CommandId, completion: Completion, now: Time)
    : (Store, Result<Command, AdminError>)
  {
    match Find(s.deliveries, id, instance, 0)
    case None => (s, Err(CommandTargetNotFound(id, instance)))
    case Some(k) =>
      if s.deliveries[k].status != Running then (s, Err(CommandNotRunning(id, instance)))
      else MemoryRecord(s, k, Finished(s.deliveries[k], completion), now)
  }

  /** Puts a finished delivery in its place and reviews its command. */
  function MemoryRecord(s: Store, k: nat, d: Delivery, now: Time): (Store, Result<Command, AdminError>)
    requires k < |s.deliveries|
  {
    var ds := s.deliveries[k := d];
    if d.command !in s.commands then (s.(deliveries := ds), Err(CommandNotFound(d.command)))
    else
      var c := Reviewed(s.commands[d.command], StatesOf(ds, d.command), now);
      (Store(s.commands[d.command := c], ds), Ok(c))
  }

  class MemoryAdminServerStore {
    var commands: map<CommandId, Command>
    var deliveries: seq<Delivery>

    function View(): Store
      reads this
    {
      Store(commands, deliveries)
    }

    constructor ()
      ensures View() == Store(map[], [])
    {
      commands, deliveries := map[], [];
    }

    method SaveBatchCommand(c: Command, targets: seq<string>)
      modifies this
      ensures View() == MemorySave(old(View()), c, targets)
    {
      commands := commands[c.id := c];
      for i := 0 to |targets|
        invariant commands == old(commands)[c.id := c]
        invariant deliveries
                  == old(deliveries) + seq(i, j requires 0 <= j < i && i <= |targets| => NewDelivery(c.id, targets[j]))
      {
        deliveries := deliveries + [NewDelivery(c.id, targets[i])];
      }
    }

    method AssignNextCommand(instance: string, now: Time) returns (r: Result<Option<Assignment>, AdminError>)
      modifies this
      ensures (View(), r) == MemoryAssign(old(View()), instance, now)
    {
      var found := FirstAwaiting(deliveries, instance, 0);
      if found.None? {
        return Ok(None);
      }
      var delivery := deliveries[found.value];
      deliveries := deliveries[found.value := HandedOut(delivery, now)];
      if delivery.command !in commands {
        return Err(CommandNotFound(delivery.command));
      }
      var c := commands[delivery.command].(status := Running, updatedAt := now);
      commands := commands[delivery.command := c];
      return Ok(Some(AssignmentOf(c, instance, now)));
    }

    method PendingCommandCount(instance: string) returns (n: nat)
      ensures n == CountAwaiting(deliveries, instance)
    {
      n := 0;
      for i := 0 to |deliveries|
        invariant n == CountAwaiting(deliveries[..i], instance)
      {
        AwaitingGrows(deliveries, instance, i);
        if Awaits(deliveries[i], instance) {
          n := n + 1;
        }
      }
      assert deliveries[..|deliveries|] == deliveries;
    }

    method RecordCommandCompletion(instance: string, id: CommandId, completion: Completion, now: Time)
      returns (r: Result<Command, AdminError>)
      modifies this
      ensures (View(), r) == MemoryComplete(old(View()), instance, id, completion, now)
    {
      var found := Find(deliveries, id, instance, 0);
      if found.None? {
        return Err(CommandTargetNotFound(id, instance));
      }
      var delivery := deliveries[found.value];
      if delivery.status != Running {
        return Err(CommandNotRunning(id, instance));
      }
      deliveries := deliveries[found.value := Finished(delivery, completion)];
      if id !in commands {
        return Err(CommandNotFound(id));
      }
      var c := Reviewed(commands[id], StatesOf(deliveries, id), now);
      commands := commands[id := c];
      return Ok(c);
    }
  }

  // ---- the SQL store ----

  /** INSERT of one delivery row, doing nothing when its key is taken. */
  function Inserted(rows: seq<Delivery>, id: CommandId, target: string): seq<Delivery> {
    if Find(rows, id, target, 0).Some? then rows else rows + [NewDelivery(id, target)]
  }

  function InsertedAll(rows: seq<Delivery>, id: CommandId, targets: seq<string>): seq<Delivery> {
    if targets == [] then rows
    else Inserted(InsertedAll(rows, id, targets[..|targets| - 1]), id, targets[|targets| - 1])
  }

  /** The join of pending deliveries with commands, oldest command first, limited to one. */
  function OldestAwaiting(commands: map<CommandId, Command>, rows: seq<Delivery>, instance: string): (r: Option<CommandId>)
    ensures r.Some? ==> r.value in commands
  {
    if rows == [] then None
    else
      var last, before := rows[|rows| - 1], OldestAwaiting(commands, rows[..|rows| - 1], instance);
      if Awaits(last, instance) && last.command in commands
         && (before.None? || commands[last.command].createdAt < commands[before.value].createdAt)
      then Some(last.command) else before
  }

  /** UPDATE of the rows with a given key. */
  function Updated(rows: seq<Delivery>, id: CommandId, instance: string, f: Delivery -> Delivery): seq<Delivery> {
    seq(|rows|, i requires 0 <= i < |rows| => if Addresses(rows[i], id, instance) then f(rows[i]) else rows[i])
  }

  predicate StringLe(a: string, b: string) {
    a == [] || (b != [] && (a[0] < b[0] || (a[0] == b[0] && StringLe(a[1..], b[1..]))))
  }

  function InsertByTarget(s: DeliveryState, states: seq<DeliveryState>): seq<DeliveryState> {
    if states == [] || StringLe(s.target, states[0].target) then [s] + states
    else [states[0]] + InsertByTarget(s, states[1..])
  }

  /** ORDER BY target. */
  function SortedByTarget(states: seq<DeliveryState>): seq<DeliveryState> {
    if states == [] then [] else InsertByTarget(states[0], SortedByTarget(states[1..]))
  }

  /** INSERT of a command, which fails when its key is taken, and of its deliveries. */
  function SqlSave(s: Store, c: Command, targets: seq<string>): (Store, Result<(), AdminError>) {
    if c.id in s.commands then (s, Err(KeyTaken(c.id)))
    else (Store(s.commands[c.id := c], InsertedAll(s.deliveries, c.id, targets)), Ok(()))
  }

  function SqlAssign(s: Store, instance: string, now: Time): (Store, Result<Option<Assignment>, AdminError>) {
    match OldestAwaiting(s.commands, s.deliveries, instance)
    case None => (s, Ok(None))
    case Some(id) =>
      var c := s.commands[id].(status := Running, updatedAt := now);
      (Store(s.commands[id := c], Updated(s.deliveries, id, instance, d => HandedOut(d, now))),
       Ok(Some(AssignmentOf(c, instance, now))))
  }

  function SqlComplete(s: Store, instance: string, id: CommandId, completion: Completion, now: Time)
    : (Store, Result<Command, AdminError>)
  {
    match Find(s.deliveries, id, instance, 0)
    case None => (s, Err(if id in s.commands then CommandTargetNotFound(id, instance) else CommandNotFound(id)))
    case Some(k) =>
      if s.deliveries[k].status != Running then (s, Err(CommandNotRunning(id, instance)))
      else
        var ds := Updated(s.deliveries, id, instance, d => Finished(d, completion));
        if id !in s.commands then (s.(deliveries := ds), Err(CommandNotFound(id)))
        else
          var c := Reviewed(s.commands[id], SortedByTarget(StatesOf(ds, id)), now);
          (Store(s.commands[id := c], ds), Ok(c))
  }

  class SqliteAdminServerStore {
    var commands: map<CommandId, Command>
    var deliveries: seq<Delivery>

    function View(): Store
      reads this
    {
      Store(commands, deliveries)
    }

    constructor ()
      ensures View() == Store(map[], [])
    {
      commands, deliveries := map[], [];
    }

    method SaveBatchCommand(c: Command, targets: seq<string>) returns (r: Result<(), AdminError>)
      modifies this
      ensures (View(), r) == SqlSave(old(View()), c, targets)
    {
      if c.id in commands {
        return Err(KeyTaken(c.id));
      }
      commands := commands[c.id := c];
      assert targets[..0] == [];
      for i := 0 to |targets|
        invariant commands == old(commands)[c.id := c]
        invariant deliveries == InsertedAll(old(deliveries), c.id, targets[..i])
      {
        assert targets[..i + 1][..i] == targets[..i];
        if Find(deliveries, c.id, targets[i], 0).None? {
          deliveries := deliveries + [NewDelivery(c.id, targets[i])];
        }
      }
      assert targets[..|targets|] == targets;
      return Ok(());
    }

    method AssignNextCommand(instance: string, now: Time) returns (r: Result<Option<Assignment>, AdminError>)
      modifies this
      ensures (View(), r) == SqlAssign(old(View()), instance, now)
    {
      var row := OldestAwaiting(commands, deliveries, instance);
      if row.None? {
        return Ok(None);
      }
      var c := commands[row.value].(status := Running, updatedAt := now);
      deliveries := Updated(deliveries, row.value, instance, d => HandedOut(d, now));
      commands := commands[row.value := c];
      return Ok(Some(AssignmentOf(c, instance, now)));
    }

    /** Selects the pending rows of the instance and counts them. */
    method PendingCommandCount(instance: string) returns (n: nat)
      ensures n == CountAwaiting(deliveries, instance)
    {
      var selected: seq<Delivery> := [];
      for i := 0 to |deliveries|
        invariant |selected| == CountAwaiting(deliveries[..i], instance)
      {
        AwaitingGrows(deliveries, instance, i);
        if deliveries[i].target == instance && deliveries[i].status == Pending {
          selected := selected + [deliveries[i]];
        }
      }
      assert deliveries[..|deliveries|] == deliveries;
      return |selected|;
    }

    method RecordCommandCompletion(instance: string, id: CommandId, completion: Completion, now: Time)
      returns (r: Result<Command, AdminError>)
      modifies this
      ensures (View(), r) == SqlComplete(old(View()), instance, id, completion, now)
    {
      var found := Find(deliveries, id, instance, 0);
      if found.None? {
        if id !in commands {
          return Err(CommandNotFound(id));
        }
        return Err(CommandTargetNotFound(id, instance));
      }
      if deliveries[found.value].status != Running {
        return Err(CommandNotRunning(id, instance));
      }
      deliveries := Updated(deliveries, id, instance, d => Finished(d, completion));
      if id !in commands {
        return Err(CommandNotFound(id));
      }
      var c := Reviewed(commands[id], SortedByTarget(StatesOf(deliveries, id)), now);
      commands := commands[id := c];
      return Ok(c);
    }
  }
}
