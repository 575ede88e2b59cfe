/** What commands, assignments and completions come to, said by the deliveries and the calls of a run. */
module AdminOutcome {
  import opened Wrappers
  import Sequences
  import Tokenizer
  import opened AdminServer
  import opened AdminRefinement
  import opened AdminDelivery

  // ---- targets of a batch ----

  /** The targets are exactly the non-empty ids named directly or by a group asked for, trimmed, each
      once; a group that does not exist is an error instead, and the first such group is named. */
  lemma TargetsMeaning(direct: seq<string>, groups: map<nat, seq<string>>, groupIds: seq<nat>)
    ensures var r := Resolved(direct, groups, groupIds);
            if r.Ok? then
              && (forall g <- groupIds :: g in groups) && NoRepeats(r.value)
              && forall id :: id in r.value <==> id != "" && (TrimsTo(direct, id) || InGroups(groups, groupIds, id))
            else
              exists n :: 0 <= n < |groupIds| && FirstMissing(groups, groupIds, n) && r.error == MachineGroupNotFound(groupIds[n])
  {
    MembersFound(groups, groupIds);
    if GroupMembers(groups, groupIds).Ok? {
      var members := GroupMembers(groups, groupIds).value;
      DeduplicatedMeaning(Deduplicated(direct) + members);
      forall id | id != ""
        ensures TrimsTo(Deduplicated(direct) + members, id) <==> TrimsTo(direct, id) || InGroups(groups, groupIds, id)
      {
        TrimsToParts(Deduplicated(direct), members, id);
        TrimsAgain(direct, id);
        MembersTrim(groups, groupIds, id);
      }
    }
  }

  lemma TrimsToParts(a: seq<string>, b: seq<string>, id: string)
    ensures TrimsTo(a + b, id) <==> TrimsTo(a, id) || TrimsTo(b, id)
  {
    if i :| 0 <= i < |a| && Tokenizer.Trim(a[i]) == id {
      assert (a + b)[i] == a[i];
    }
    if i :| 0 <= i < |b| && Tokenizer.Trim(b[i]) == id {
      assert (a + b)[|a| + i] == b[i];
    }
  }

  /** Deduplicated ids are trimmed already. */
  lemma TrimsAgain(ids: seq<string>, id: string)
    requires id != ""
    ensures TrimsTo(Deduplicated(ids), id) <==> TrimsTo(ids, id)
  {
    var clean := Deduplicated(ids);
    DeduplicatedMeaning(ids);
    if i :| 0 <= i < |clean| && Tokenizer.Trim(clean[i]) == id {
      assert clean[i] in clean;
      var k :| 0 <= k < |ids| && Tokenizer.Trim(ids[k]) == clean[i];
      Tokenizer.TrimTwice(ids[k]);
    }
    if TrimsTo(ids, id) {
      var k :| 0 <= k < |clean| && clean[k] == id;
      var i :| 0 <= i < |ids| && Tokenizer.Trim(ids[i]) == id;
      Tokenizer.TrimTwice(ids[i]);
    }
  }

  /** The first group that does not exist is the error; without one there are members. */
  lemma {:induction false} MembersFound(groups: map<nat, seq<string>>, ids: seq<nat>)
    ensures var r := GroupMembers(groups, ids);
            if r.Ok? then forall g <- ids :: g in groups
            else exists n :: 0 <= n < |ids| && FirstMissing(groups, ids, n) && r.error == MachineGroupNotFound(ids[n])
  {
    if ids != [] {
      var n := |ids| - 1;
      var before := ids[..n];
      MembersFound(groups, before);
      if GroupMembers(groups, before).Ok? {
        assert forall g <- ids :: g in before || g == ids[n];
        assert forall m :: 0 <= m < n ==> ids[m] in before;
        assert ids[n] !in groups ==> FirstMissing(groups, ids, n);
      } else {
        var k :| 0 <= k < n && FirstMissing(groups, before, k) && GroupMembers(groups, before).error == MachineGroupNotFound(before[k]);
        assert FirstMissing(groups, ids, k);
      }
    }
  }

  /** The `n`th group is the first that does not exist. */
  predicate FirstMissing(groups: map<nat, seq<string>>, ids: seq<nat>, n: nat)
    requires n < |ids|
  {
    ids[n] !in groups && forall m :: 0 <= m < n ==> ids[m] in groups
  }

  /** An id is that of a member of some group. */
  predicate InGroups(groups: map<nat, seq<string>>, ids: seq<nat>, id: string) {
    exists g <- ids :: g in groups && TrimsTo(groups[g], id)
  }

  lemma {:induction false} MembersTrim(groups: map<nat, seq<string>>, ids: seq<nat>, id: string)
    requires GroupMembers(groups, ids).Ok?
    ensures TrimsTo(GroupMembers(groups, ids).value, id) <==> InGroups(groups, ids, id)
  {
    if ids != [] {
      var n := |ids| - 1;
      MembersTrim(groups, ids[..n], id);
      TrimsToParts(GroupMembers(groups, ids[..n]).value, groups[ids[n]], id);
      assert forall g :: g in ids <==> g in ids[..n] || g == ids[n];
    }
  }

  // ---- the order of targets ----

  /** The members of the groups, group after group. */
  function Members(groups: map<nat, seq<string>>, ids: seq<nat>): seq<string>
    requires forall g <- ids :: g in groups
    decreases |ids|
  {
    if ids == [] then [] else groups[ids[0]] + Members(groups, ids[1..])
  }

  lemma {:induction false} MembersLast(groups: map<nat, seq<string>>, ids: seq<nat>, g: nat)
    requires (forall h <- ids :: h in groups) && g in groups
    ensures Members(groups, ids + [g]) == Members(groups, ids) + groups[g]
    decreases |ids|
  {
    if ids == [] {
      assert ids + [g] == [g] && [g][1..] == [] && Members(groups, [g]) == groups[g] + [];
    } else {
      MembersLast(groups, ids[1..], g);
      assert (ids + [g])[1..] == ids[1..] + [g];
      Sequences.Assoc(groups[ids[0]], Members(groups, ids[1..]), groups[g]);
    }
  }

  lemma {:induction false} MembersInOrder(groups: map<nat, seq<string>>, ids: seq<nat>)
    requires forall g <- ids :: g in groups
    ensures GroupMembers(groups, ids) == Ok(Members(groups, ids))
    decreases |ids|
  {
    if ids != [] {
      var n := |ids| - 1;
      MembersInOrder(groups, ids[..n]);
      MembersLast(groups, ids[..n], ids[n]);
      assert ids[..n] + [ids[n]] == ids;
    }
  }

  lemma DeduplicatedLast(ids: seq<string>, id: string)
    ensures var before, trimmed := Deduplicated(ids), Tokenizer.Trim(id);
            Deduplicated(ids + [id]) == if trimmed == "" || trimmed in before then before else before + [trimmed]
  {
    assert (ids + [id])[..|ids|] == ids;
  }

  lemma {:induction false} DeduplicatedStays(ids: seq<string>)
    ensures Deduplicated(Deduplicated(ids)) == Deduplicated(ids)
    decreases |ids|
  {
    if ids != [] {
      var n := |ids| - 1;
      DeduplicatedStays(ids[..n]);
      Tokenizer.TrimTwice(ids[n]);
      DeduplicatedLast(Deduplicated(ids[..n]), Tokenizer.Trim(ids[n]));
    }
  }

  lemma {:induction false} DeduplicatedOnce(a: seq<string>, b: seq<string>)
    ensures Deduplicated(Deduplicated(a) + b) == Deduplicated(a + b)
    decreases |b|
  {
    if b == [] {
      DeduplicatedStays(a);
      assert Deduplicated(a) + b == Deduplicated(a) && a + b == a;
    } else {
      var n := |b| - 1;
      DeduplicatedOnce(a, b[..n]);
      DeduplicatedLast(Deduplicated(a) + b[..n], b[n]);
      DeduplicatedLast(a + b[..n], b[n]);
      assert Deduplicated(a) + b == Deduplicated(a) + b[..n] + [b[n]] && a + b == a + b[..n] + [b[n]];
    }
  }

  /** `x` is named before `y` is. */
  predicate NamedBefore(ids: seq<string>, x: string, y: string) {
    exists p :: 0 <= p < |ids| && Tokenizer.Trim(ids[p]) == x && forall q :: 0 <= q <= p ==> Tokenizer.Trim(ids[q]) != y
  }

  lemma {:induction false} FirstNamedFirst(ids: seq<string>, i: nat, j: nat)
    requires i < j < |Deduplicated(ids)|
    ensures NamedBefore(ids, Deduplicated(ids)[i], Deduplicated(ids)[j])
    decreases |ids|
  {
    var n := |ids| - 1;
    var before, x, y := ids[..n], Deduplicated(ids)[i], Deduplicated(ids)[j];
    if j < |Deduplicated(before)| {
      FirstNamedFirst(before, i, j);
      var p :| 0 <= p < n && Tokenizer.Trim(before[p]) == x && forall q :: 0 <= q <= p ==> Tokenizer.Trim(before[q]) != y;
      assert Tokenizer.Trim(ids[p]) == x && forall q :: 0 <= q <= p ==> ids[q] == before[q];
    } else {
      DeduplicatedMeaning(before);
      assert x in Deduplicated(before) && y !in Deduplicated(before);
      var p :| 0 <= p < n && Tokenizer.Trim(before[p]) == x;
      assert Tokenizer.Trim(ids[p]) == x && forall q :: 0 <= q <= p ==> ids[q] == before[q] && Tokenizer.Trim(before[q]) != y;
    }
  }

  /** Targets stand in the order in which they are first named: those named directly, then the members
      of the groups asked for, group after group. */
  lemma TargetsInOrder(direct: seq<string>, groups: map<nat, seq<string>>, groupIds: seq<nat>, i: nat, j: nat)
    requires forall g <- groupIds :: g in groups
    ensures Resolved(direct, groups, groupIds).Ok?
    ensures var targets := Resolved(direct, groups, groupIds).value;
            i < j < |targets| ==> NamedBefore(direct + Members(groups, groupIds), targets[i], targets[j])
  {
    MembersInOrder(groups, groupIds);
    DeduplicatedOnce(direct, Members(groups, groupIds));
    if i < j < |Resolved(direct, groups, groupIds).value| {
      FirstNamedFirst(direct + Members(groups, groupIds), i, j);
    }
  }

  // ---- status and result of a command ----

  /** Some delivery of a command has a status. */
  predicate Has(ds: seq<Delivery>, id: CommandId, status: CommandStatus) {
    exists i :: 0 <= i < |ds| && ds[i].command == id && ds[i].status == status
  }

  /** Some delivery of a command is still to be completed. */
  predicate Open(ds: seq<Delivery>, id: CommandId) {
    Has(ds, id, Pending) || Has(ds, id, Running)
  }

  predicate HandedOutOnce(ds: seq<Delivery>, id: CommandId) {
    Has(ds, id, Running) || Has(ds, id, Completed) || Has(ds, id, Failed) || Has(ds, id, Skipped)
  }

  /** What the status of a command must be. */
  predicate StatusFits(status: CommandStatus, ds: seq<Delivery>, id: CommandId) {
    match status
    case Pending => Has(ds, id, Pending) && !HandedOutOnce(ds, id)
    case Running => Open(ds, id) && HandedOutOnce(ds, id)
    case Failed => !Open(ds, id) && Has(ds, id, Failed)
    case Completed => !Open(ds, id) && !Has(ds, id, Failed) && Has(ds, id, Completed)
    case Skipped => !Open(ds, id) && !Has(ds, id, Failed) && !Has(ds, id, Completed) && Has(ds, id, Skipped)
  }

  predicate HasState(states: seq<DeliveryState>, status: CommandStatus) {
    exists s <- states :: s.status == status
  }

  lemma HasStates(ds: seq<Delivery>, id: CommandId, status: CommandStatus)
    ensures HasState(StatesOf(ds, id), status) <==> Has(ds, id, status)
  {
    StatesMeaning(ds, id);
    if i :| 0 <= i < |ds| && ds[i].command == id && ds[i].status == status {
      assert StateOf(ds[i]) in StatesOf(ds, id);
    }
  }

  lemma HasOther(states: seq<DeliveryState>, s: DeliveryState)
    requires s in states
    ensures HasState(states, s.status)
  {
  }

  lemma AllPending(states: seq<DeliveryState>)
    requires states != []
    ensures (forall s <- states :: s.status == Pending)
            <==> !HasState(states, Running) && !HasState(states, Completed) && !HasState(states, Failed) && !HasState(states, Skipped)
    ensures (forall s <- states :: s.status == Pending) ==> HasState(states, Pending)
  {
    assert states[0] in states;
    if s :| s in states && s.status != Pending {
      HasOther(states, s);
    }
  }

  lemma AggregateOpen(states: seq<DeliveryState>)
    ensures (exists s <- states :: s.status == Pending || s.status == Running)
            <==> HasState(states, Pending) || HasState(states, Running)
  {
    if s :| s in states && (s.status == Pending || s.status == Running) {
      HasOther(states, s);
    }
  }

  lemma AllSkipped(states: seq<DeliveryState>)
    requires states != [] && !HasState(states, Pending) && !HasState(states, Running) && !HasState(states, Failed)
    ensures (forall s <- states :: s.status == Skipped) <==> !HasState(states, Completed)
    ensures !HasState(states, Completed) ==> HasState(states, Skipped)
  {
    assert states[0] in states;
    if s :| s in states && s.status != Skipped {
      HasOther(states, s);
    }
  }

  /** The same of the states alone. */
  lemma AggregateMeaning(states: seq<DeliveryState>)
    requires states != []
    ensures var open := HasState(states, Pending) || HasState(states, Running);
            match Aggregate(states)
            case Pending => false
            case Running => open
            case Failed => !open && HasState(states, Failed)
            case Completed => !open && !HasState(states, Failed) && HasState(states, Completed)
            case Skipped => !open && !HasState(states, Failed) && !HasState(states, Completed) && HasState(states, Skipped)
  {
    AggregateOpen(states);
    if !HasState(states, Pending) && !HasState(states, Running) && !HasState(states, Failed) {
      AllSkipped(states);
    }
  }

  /** After every run the status of a command is the one its deliveries call for: pending while none was
      handed out; running while some was and some is open; and once none is open, failed if some
      failed, else completed if some completed, else skipped. */
  lemma StatusMeaning(ops: seq<Op>, id: CommandId)
    requires FreshRun(EMPTY, ops) && id in MemoryRun(EMPTY, ops).0.commands
    ensures var s := MemoryRun(EMPTY, ops).0; StatusFits(s.commands[id].status, s.deliveries, id)
  {
    var s := MemoryRun(EMPTY, ops).0;
    AlwaysConsistent(ops);
    assert Consistent(s.commands[id], StatesOf(s.deliveries, id));
    AllPending(StatesOf(s.deliveries, id));
    AggregateMeaning(StatesOf(s.deliveries, id));
    HasStates(s.deliveries, id, Pending);
    HasStates(s.deliveries, id, Running);
    HasStates(s.deliveries, id, Completed);
    HasStates(s.deliveries, id, Failed);
    HasStates(s.deliveries, id, Skipped);
  }

  /** One status fits. */
  lemma StatusFitsOnce(a: CommandStatus, b: CommandStatus, ds: seq<Delivery>, id: CommandId)
    requires StatusFits(a, ds, id) && StatusFits(b, ds, id)
    ensures a == b
  {
  }

  /** The result a finished delivery gives: its target, its status in the words of a result, and its message. */
  predicate Reports(d: Delivery, r: TargetResult) {
    && r.target == d.target
    && (match d.status
        case Completed => r.status == Accepted
        case Failed => r.status == Error
        case Skipped => r.status == TargetSkipped
        case _ => false)
    && (if d.message.Some? then r.message == d.message.value else r.message == "Comando finalizado")
  }

  /** A result has an entry for every finished delivery and no other; it is accepted when none failed. */
  predicate ResultFits(result: Option<CommandResult>, kind: nat, ds: seq<Delivery>, id: CommandId) {
    var finished := Has(ds, id, Completed) || Has(ds, id, Failed) || Has(ds, id, Skipped);
    && (result.Some? <==> finished)
    && (result.Some? ==> result.value.kind == kind && (result.value.accepted <==> !Has(ds, id, Failed)))
  }

  /** The entries of a result are those the finished deliveries give. */
  ghost predicate EntriesFit(results: seq<TargetResult>, ds: seq<Delivery>, id: CommandId) {
    forall r :: r in results <==> GivesEntry(ds, id, r)
  }

  /** An entry given by some finished delivery of a command. */
  predicate GivesEntry(ds: seq<Delivery>, id: CommandId, r: TargetResult) {
    exists i :: 0 <= i < |ds| && ds[i].command == id && Reports(ds[i], r)
  }

  lemma EntryParts(ds: seq<Delivery>, id: CommandId, r: TargetResult)
    requires ds != []
    ensures GivesEntry(ds, id, r) <==> (ds[0].command == id && Reports(ds[0], r)) || GivesEntry(ds[1..], id, r)
  {
    var rest := ds[1..];
    if i :| 0 <= i < |rest| && rest[i].command == id && Reports(rest[i], r) {
      assert ds[i + 1].command == id && Reports(ds[i + 1], r);
    }
    if i :| 0 <= i < |ds| && ds[i].command == id && Reports(ds[i], r) {
      assert i > 0 ==> rest[i - 1].command == id && Reports(rest[i - 1], r);
    }
  }

  lemma ReportsOne(d: Delivery, r: TargetResult)
    ensures Reports(d, r) <==> TargetResultOf(StateOf(d)) == Some(r)
  {
  }

  lemma {:induction false} ResultMember(ds: seq<Delivery>, id: CommandId, r: TargetResult)
    ensures r in TargetResults(StatesOf(ds, id)) <==> GivesEntry(ds, id, r)
    decreases |ds|
  {
    if ds != [] {
      ResultMember(ds[1..], id, r);
      ResultsAfter(ds[0], id, StatesOf(ds[1..], id));
      ReportsOne(ds[0], r);
      EntryParts(ds, id, r);
    }
  }

  lemma ResultsMeaning(ds: seq<Delivery>, id: CommandId)
    ensures EntriesFit(TargetResults(StatesOf(ds, id)), ds, id)
  {
    forall r ensures r in TargetResults(StatesOf(ds, id)) <==> GivesEntry(ds, id, r) {
      ResultMember(ds, id, r);
    }
  }

  lemma FailedEntry(ds: seq<Delivery>, id: CommandId, results: seq<TargetResult>)
    requires EntriesFit(results, ds, id)
    ensures (exists r <- results :: r.status == Error) <==> Has(ds, id, Failed)
    ensures results != [] <==> Has(ds, id, Completed) || Has(ds, id, Failed) || Has(ds, id, Skipped)
  {
    forall i | 0 <= i < |ds| && ds[i].command == id && ds[i].status != Pending && ds[i].status != Running
      ensures exists r <- results :: Reports(ds[i], r)
    {
      var message := if ds[i].message.Some? then ds[i].message.value else "Comando finalizado";
      var status := match ds[i].status case Completed => Accepted case Failed => Error case _ => TargetSkipped;
      var r := TargetResult(ds[i].target, status, message);
      assert Reports(ds[i], r) && GivesEntry(ds, id, r);
    }
    if results != [] {
      assert GivesEntry(ds, id, results[0]);
    }
    if r :| r in results && r.status == Error {
      assert GivesEntry(ds, id, r);
    }
  }

  /** After every run a command has a result once some delivery is finished; it has an entry for every
      finished delivery and no other, and is accepted exactly when no delivery failed. */
  lemma ResultMeaning(ops: seq<Op>, id: CommandId)
    requires FreshRun(EMPTY, ops) && id in MemoryRun(EMPTY, ops).0.commands
    ensures var s := MemoryRun(EMPTY, ops).0; var c := s.commands[id];
            && ResultFits(c.result, c.request.kind, s.deliveries, id)
            && (c.result.Some? ==> EntriesFit(c.result.value.results, s.deliveries, id))
  {
    var s := MemoryRun(EMPTY, ops).0;
    AlwaysConsistent(ops);
    ResultsMeaning(s.deliveries, id);
    FailedEntry(s.deliveries, id, TargetResults(StatesOf(s.deliveries, id)));
    assert Consistent(s.commands[id], StatesOf(s.deliveries, id));
  }

  // ---- completions ----

  /** A delivery as its instance reported it: the status named, the time, and the message trimmed, or a
      standard one when there is none. */
  predicate AsReported(d: Delivery, c: Completion) {
    var text := Tokenizer.Trim(c.message);
    match c.status
    case WasCompleted =>
      d.status == Completed && d.completedAt == Some(c.completedAt) && d.message == Some(if text != "" then text else "Comando concluido")
    case WasFailed =>
      d.status == Failed && d.completedAt == Some(c.completedAt) && d.message == Some(if text != "" then text else "Comando falhou")
    case WasSkipped =>
      d.status == Skipped && d.completedAt == Some(c.completedAt) && d.message == Some(if text != "" then text else "Comando ignorado")
  }

  predicate IsFinished(d: Delivery) {
    d.status != Pending && d.status != Running
  }

  /** The `j`th call is an accepted completion of a delivery. */
  predicate AcceptedAt(ops: seq<Op>, replies: seq<Reply>, j: nat, d: Delivery)
    requires |ops| == |replies| && j < |ops|
  {
    ops[j].Complete? && ops[j].id == d.command && ops[j].instance == d.target && replies[j].Recorded?
  }

  /** What one call may do to the delivery at a place of the table. */
  lemma DeliveryStep(s: Store, op: Op, i: nat)
    requires Sound(s) && i < |MemoryStep(s, op).0.deliveries|
    ensures var (s', reply) := MemoryStep(s, op); var d := s'.deliveries[i];
            && |s.deliveries| <= |s'.deliveries|
            && if i >= |s.deliveries| then d.status == Pending
               else || d == s.deliveries[i]
                    || (op.Poll? && d.status == Running && s.deliveries[i].status == Pending)
                    || (&& op.Complete? && op.id == d.command && op.instance == d.target && reply.Recorded?
                        && AsReported(d, op.completion) && s.deliveries[i].status == Running)
    ensures i < |s.deliveries| ==> MemoryStep(s, op).0.deliveries[i].command == s.deliveries[i].command
                                   && MemoryStep(s, op).0.deliveries[i].target == s.deliveries[i].target
  {
  }

  /** After every run each finished delivery is as some accepted completion of the run reported it. */
  lemma {:induction false} FinishedAsReported(ops: seq<Op>, i: nat)
    requires FreshRun(EMPTY, ops) && i < |MemoryRun(EMPTY, ops).0.deliveries|
    requires IsFinished(MemoryRun(EMPTY, ops).0.deliveries[i])
    ensures var (s, replies) := MemoryRun(EMPTY, ops);
            && |replies| == |ops|
            && exists j :: 0 <= j < |ops| && AcceptedAt(ops, replies, j, s.deliveries[i]) && AsReported(s.deliveries[i], ops[j].completion)
    decreases |ops|
  {
    var (s, replies) := MemoryRun(EMPTY, ops);
    MemoryRunSound(ops);
    if ops != [] {
      var n := |ops| - 1;
      var (t, before) := MemoryRun(EMPTY, ops[..n]);
      MemoryRunSound(ops[..n]);
      DeliveryStep(t, ops[n], i);
      assert replies[..n] == before;
      if i < |t.deliveries| && s.deliveries[i] == t.deliveries[i] {
        FinishedAsReported(ops[..n], i);
        var j :| 0 <= j < n && AcceptedAt(ops[..n], before, j, t.deliveries[i]) && AsReported(t.deliveries[i], ops[..n][j].completion);
        assert AcceptedAt(ops, replies, j, s.deliveries[i]) && AsReported(s.deliveries[i], ops[j].completion);
      } else {
        assert AcceptedAt(ops, replies, n, s.deliveries[i]) && AsReported(s.deliveries[i], ops[n].completion);
      }
    }
  }

  /** The delivery a completion names is as it reported it. */
  predicate Reported(ds: seq<Delivery>, op: Op)
    requires op.Complete?
  {
    exists i :: 0 <= i < |ds| && Addresses(ds[i], op.id, op.instance) && AsReported(ds[i], op.completion)
  }

  /** What an accepted completion leaves. */
  lemma CompletionStep(s: Store, op: Op)
    requires Sound(s) && op.Complete? && MemoryStep(s, op).1.Recorded?
    ensures Reported(MemoryStep(s, op).0.deliveries, op)
  {
    var k := Find(s.deliveries, op.id, op.instance, 0).value;
    assert AsReported(MemoryStep(s, op).0.deliveries[k], op.completion);
  }

  /** No call touches a finished delivery. */
  lemma ReportedStays(s: Store, op: Op, done: Op)
    requires Sound(s) && done.Complete? && Reported(s.deliveries, done)
    ensures Reported(MemoryStep(s, op).0.deliveries, done)
  {
    var i :| 0 <= i < |s.deliveries| && Addresses(s.deliveries[i], done.id, done.instance) && AsReported(s.deliveries[i], done.completion);
    StepLengthens(s, op);
    DeliveryStep(s, op, i);
    assert MemoryStep(s, op).0.deliveries[i] == s.deliveries[i];
  }

  lemma StepLengthens(s: Store, op: Op)
    ensures |s.deliveries| <= |MemoryStep(s, op).0.deliveries|
  {
  }

  /** The replies of a run. */
  lemma LastReply(ops: seq<Op>)
    requires FreshRun(EMPTY, ops) && ops != []
    ensures var n := |ops| - 1; var (t, before) := MemoryRun(EMPTY, ops[..n]);
            |before| == n && MemoryRun(EMPTY, ops).1 == before + [MemoryStep(t, ops[n]).1]
  {
    MemoryRunSound(ops[..|ops| - 1]);
  }

  lemma ReportedLast(ops: seq<Op>, done: Op)
    requires ops != [] && done.Complete?
    requires Reported(MemoryStep(MemoryRun(EMPTY, ops[..|ops| - 1]).0, ops[|ops| - 1]).0.deliveries, done)
    ensures Reported(MemoryRun(EMPTY, ops).0.deliveries, done)
  {
  }

  lemma StaysReported(ops: seq<Op>, done: Op)
    requires FreshRun(EMPTY, ops) && ops != [] && done.Complete?
    requires Reported(MemoryRun(EMPTY, ops[..|ops| - 1]).0.deliveries, done)
    ensures Reported(MemoryRun(EMPTY, ops).0.deliveries, done)
  {
    MemoryRunSound(ops[..|ops| - 1]);
    ReportedStays(MemoryRun(EMPTY, ops[..|ops| - 1]).0, ops[|ops| - 1], done);
    ReportedLast(ops, done);
  }

  lemma BecomesReported(ops: seq<Op>)
    requires FreshRun(EMPTY, ops) && ops != [] && ops[|ops| - 1].Complete?
    requires MemoryStep(MemoryRun(EMPTY, ops[..|ops| - 1]).0, ops[|ops| - 1]).1.Recorded?
    ensures Reported(MemoryRun(EMPTY, ops).0.deliveries, ops[|ops| - 1])
  {
    MemoryRunSound(ops[..|ops| - 1]);
    CompletionStep(MemoryRun(EMPTY, ops[..|ops| - 1]).0, ops[|ops| - 1]);
    ReportedLast(ops, ops[|ops| - 1]);
  }

  /** After every run each accepted completion of the run has its delivery, as it reported it. */
  lemma {:induction false} ReportedIsFinished(ops: seq<Op>, j: nat)
    requires FreshRun(EMPTY, ops) && j < |ops| && ops[j].Complete?
    requires |MemoryRun(EMPTY, ops).1| == |ops| && MemoryRun(EMPTY, ops).1[j].Recorded?
    ensures Reported(MemoryRun(EMPTY, ops).0.deliveries, ops[j])
    decreases |ops|
  {
    LastReply(ops);
    if j < |ops| - 1 {
      ReportedIsFinished(ops[..|ops| - 1], j);
      StaysReported(ops, ops[j]);
    } else {
      BecomesReported(ops);
    }
  }

  /** Some delivery of a command to an instance is running, or is not. */
  predicate IsAt(ds: seq<Delivery>, id: CommandId, instance: string, running: bool) {
    exists i :: 0 <= i < |ds| && ds[i].command == id && ds[i].target == instance && (ds[i].status == Running <==> running)
  }

  /** A completion is accepted exactly when the delivery it names is running; else the error tells
      whether there is such a delivery, and nothing changes. An accepted one changes no other delivery
      and no other command. */
  lemma CompletionMeaning(ops: seq<Op>, op: Op)
    requires FreshRun(EMPTY, ops) && op.Complete?
    ensures var s := MemoryRun(EMPTY, ops).0; var (s', reply) := MemoryStep(s, op);
            var running, idle := IsAt(s.deliveries, op.id, op.instance, true), IsAt(s.deliveries, op.id, op.instance, false);
            && (reply.Recorded? <==> running) && !(running && idle)
            && (idle ==> reply == Refused(CommandNotRunning(op.id, op.instance)))
            && (!running && !idle ==> reply == Refused(CommandTargetNotFound(op.id, op.instance)))
            && (!running ==> s' == s)
            && (running ==> s' == Store(s.commands[op.id := reply.command], s'.deliveries)
                            && |s'.deliveries| == |s.deliveries| && reply.command.updatedAt == op.now)
            && forall i :: 0 <= i < |s.deliveries| && !Addresses(s.deliveries[i], op.id, op.instance)
                 ==> s'.deliveries[i] == s.deliveries[i]
  {
    MemoryRunSound(ops);
    var k := Find(MemoryRun(EMPTY, ops).0.deliveries, op.id, op.instance, 0);
  }

  // ---- the SQL store ----

  /** In the SQL store, too, statuses, results and deliveries are what the calls of the run make of them. */
  lemma SqlOutcome(ops: seq<Op>, id: CommandId)
    requires FreshRun(EMPTY, ops) && id in SqlRun(EMPTY, ops).0.commands
    ensures var s := SqlRun(EMPTY, ops).0; var c := s.commands[id];
            && StatusFits(c.status, s.deliveries, id)
            && ResultFits(c.result, c.request.kind, s.deliveries, id)
            && (c.result.Some? ==> EntriesFit(c.result.value.results, s.deliveries, id))
  {
    var m, q := MemoryRun(EMPTY, ops).0, SqlRun(EMPTY, ops).0;
    StoresRelated(ops);
    StatusMeaning(ops, id);
    ResultMeaning(ops, id);
    assert SameCommand(m.commands[id], q.commands[id]);
    if q.commands[id].result.Some? {
      SameMembers(m.commands[id].result.value.results, q.commands[id].result.value.results);
    }
  }

  /** An accepted completion of the SQL store has its delivery, as it reported it. */
  lemma SqlReportedIsFinished(ops: seq<Op>, j: nat)
    requires FreshRun(EMPTY, ops) && j < |ops| && ops[j].Complete?
    requires |SqlRun(EMPTY, ops).1| == |ops| && SqlRun(EMPTY, ops).1[j].Recorded?
    ensures Reported(SqlRun(EMPTY, ops).0.deliveries, ops[j])
  {
    SqlRefinesMemory(ops, j);
    ReportedIsFinished(ops, j);
  }

  // ---- assignments ----

  /** A command is what some call enqueued. */
  predicate EnqueuedAs(c: Command, op: Op) {
    op.Enqueue? && c.id == op.id && c.source == op.source && c.createdAt == op.now
    && c.request.kind == op.kind && c.request.payload == op.payload
  }

  /** No call changes what a command asks for. */
  lemma RequestStays(s: Store, op: Op, id: CommandId)
    requires Sound(s) && Fresh(s, op) && id in MemoryStep(s, op).0.commands
    ensures var c := MemoryStep(s, op).0.commands[id];
            if id in s.commands then
              var d := s.commands[id];
              c.id == d.id && c.source == d.source && c.createdAt == d.createdAt && c.request == d.request
            else EnqueuedAs(c, op)
  {
  }

  lemma {:induction false} CommandsAsEnqueued(ops: seq<Op>, id: CommandId)
    requires FreshRun(EMPTY, ops) && id in MemoryRun(EMPTY, ops).0.commands
    ensures exists j :: 0 <= j < |ops| && EnqueuedAs(MemoryRun(EMPTY, ops).0.commands[id], ops[j])
    decreases |ops|
  {
    if ops != [] {
      var n := |ops| - 1;
      var t := MemoryRun(EMPTY, ops[..n]).0;
      MemoryRunSound(ops[..n]);
      RequestStays(t, ops[n], id);
      if id in t.commands {
        CommandsAsEnqueued(ops[..n], id);
        var j :| 0 <= j < n && EnqueuedAs(t.commands[id], ops[..n][j]);
        assert EnqueuedAs(MemoryRun(EMPTY, ops).0.commands[id], ops[j]);
      } else {
        assert EnqueuedAs(MemoryRun(EMPTY, ops).0.commands[id], ops[n]);
      }
    }
  }

  /** A poll hands out nothing exactly when no delivery awaits the instance. Else it hands out what was
      enqueued under the command's id, addressed to the instance alone, and notes the time. It tells how
      many deliveries await the instance afterwards. */
  lemma PollMeaning(ops: seq<Op>, op: Op)
    requires FreshRun(EMPTY, ops) && op.Poll?
    ensures var s := MemoryRun(EMPTY, ops).0; var (s', reply) := MemoryStep(s, op);
            && reply.Polled?
            && (reply.assignment.None? <==> forall i :: 0 <= i < |s.deliveries| && s.deliveries[i].target == op.instance
                                                        ==> s.deliveries[i].status != Pending)
            && reply.pending == |set i: nat | i < |s'.deliveries| && s'.deliveries[i].target == op.instance
                                               && s'.deliveries[i].status == Pending|
            && (reply.assignment.Some? ==>
                  var a := reply.assignment.value;
                  && a.target == op.instance && a.assignedAt == op.now && a.request.targets == [op.instance]
                  && (exists j :: 0 <= j < |ops| && HandsOut(a, ops[j]))
                  && exists k :: 0 <= k < |s.deliveries| && s.deliveries[k].status == Pending
                                 && Addresses(s.deliveries[k], a.command, op.instance)
                                 && s'.deliveries == s.deliveries[k := s.deliveries[k].(status := Running, assignedAt := Some(op.now))])
  {
    var s := MemoryRun(EMPTY, ops).0;
    MemoryRunSound(ops);
    var k := FirstAwaiting(s.deliveries, op.instance, 0);
    var ds := MemoryStep(s, op).0.deliveries;
    assert AwaitingAt(ds, op.instance) == set i: nat | i < |ds| && ds[i].target == op.instance && ds[i].status == Pending;
    if k.Some? {
      var id := s.deliveries[k.value].command;
      CommandsAsEnqueued(ops, id);
      var j :| 0 <= j < |ops| && EnqueuedAs(s.commands[id], ops[j]);
      assert HandsOut(MemoryStep(s, op).1.assignment.value, ops[j]);
    }
  }

  /** An assignment is of the command a call enqueued. */
  predicate HandsOut(a: Assignment, op: Op) {
    op.Enqueue? && a.command == op.id && a.request.kind == op.kind && a.request.payload == op.payload
  }
}
