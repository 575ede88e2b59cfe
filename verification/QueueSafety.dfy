/** What holds of the job queue in every reachable state and over every run, under any interleaving. */
module QueueSafety {
  import opened Wrappers
  import opened Queue

  // ---- runs on their way ----

  /** How many run messages of an execution a sequence holds. */
  function Runs(messages: seq<Message>, e: ExecId): nat {
    if messages == [] then 0
    else
      var last := messages[|messages| - 1];
      Runs(messages[..|messages| - 1], e) + (if last.Run? && last.exec == e then 1 else 0)
  }

  lemma RunsAppend(a: seq<Message>, m: Message, e: ExecId)
    ensures Runs(a + [m], e) == Runs(a, e) + (if m.Run? && m.exec == e then 1 else 0)
  {
    assert (a + [m])[..|a|] == a;
  }

  lemma {:induction false} RunsConcat(a: seq<Message>, b: seq<Message>, e: ExecId)
    ensures Runs(a + b, e) == Runs(a, e) + Runs(b, e)
    decreases |b|
  {
    if b == [] {
      assert a + b == a;
    } else {
      var n := |b| - 1;
      assert (a + b)[..|a| + n] == a + b[..n];
      RunsConcat(a, b[..n], e);
    }
  }

  lemma {:induction false} RunsHead(a: seq<Message>, e: ExecId)
    requires a != []
    ensures Runs(a, e) == Runs(a[1..], e) + (if a[0].Run? && a[0].exec == e then 1 else 0)
    decreases |a|
  {
    var n := |a| - 1;
    if n > 0 {
      RunsHead(a[..n], e);
      assert a[..n][1..] == a[1..][..n - 1];
    } else {
      assert a[1..] == a[..0];
    }
  }

  predicate InHand(worker: Worker, e: ExecId) {
    match worker
    case Holding(Run(_, exec)) => exec == e
    case Claiming(_, exec) => exec == e
    case _ => false
  }

  /** How many times an execution may still start: as a run about to be sent, in the channel, parked,
      or in the worker's hand. */
  function Tickets(s: State, e: ExecId): nat {
    (if e in s.unsent then 1 else 0) + Runs(s.channel, e) + Runs(s.pending, e) + (if InHand(s.worker, e) then 1 else 0)
  }

  /** How often an execution was started, and completed for each cause. */
  datatype Counts = Counts(started: nat, inQueue: nat, atClaim: nat, byTask: nat)

  function Counted(c: Counts, x: Notice, e: ExecId): Counts {
    if x.exec != e then c
    else match x
      case Started(_) => c.(started := c.started + 1)
      case Progress(_) => c
      case Completed(_, InQueue) => c.(inQueue := c.inQueue + 1)
      case Completed(_, AtClaim) => c.(atClaim := c.atClaim + 1)
      case Completed(_, ByTask) => c.(byTask := c.byTask + 1)
  }

  function CountsOf(log: seq<Notice>, e: ExecId): Counts {
    if log == [] then Counts(0, 0, 0, 0) else Counted(CountsOf(log[..|log| - 1], e), log[|log| - 1], e)
  }

  /** The counts after one more notice. */
  lemma NotedCounts(log: seq<Notice>, x: Notice, e: ExecId)
    ensures CountsOf(log + [x], e) == Counted(CountsOf(log, e), x, e)
  {
    assert (log + [x])[..|log|] == log;
  }

  // ---- the invariant ----

  /** A live task: one that has not left `running`. */
  predicate IsLive(task: Task) {
    task.stage.Working? || task.stage.Leaving?
  }

  predicate Live(s: State, e: ExecId) {
    e in s.tasks && IsLive(s.tasks[e])
  }

  /** `running` maps exactly the jobs of the live tasks to their executions. */
  ghost predicate Exclusive(s: State) {
    && (forall e <- s.tasks :: IsLive(s.tasks[e]) ==> s.tasks[e].job in s.running && s.running[s.tasks[e].job] == e)
    && (forall j <- s.running :: Live(s, s.running[j]) && s.tasks[s.running[j]].job == j)
  }

  /** The books on one execution; `stage` is that of its task. */
  datatype Book = Book(
    tickets: nat, dropped: nat, counts: Counts, issued: bool, queued: bool, claiming: bool, cancelled: bool,
    stage: Option<Stage>, token: bool, active: bool)

  function BookOf(s: State, e: ExecId): Book {
    Book(Tickets(s, e), Runs(s.record.dropped, e), CountsOf(s.record.log, e), e in s.record.issued, e in s.queued,
         s.worker.Claiming? && s.worker.exec == e, e in s.cancelled, if e in s.tasks then Some(s.tasks[e].stage) else None,
         e in s.tokens, e in s.active)
  }

  /** Every start, cancellation and report is accounted for; what was queued or cancelled in the queue
      is on its way, was dropped, or met the worker. */
  predicate Balanced(b: Book) {
    var c := b.counts;
    && b.tickets + c.started + c.atClaim + b.dropped <= 1
    && (!b.issued ==> b.tickets == c.started == c.inQueue == b.dropped == 0)
    && (b.claiming ==> b.tickets == 1)
    && (b.queued ==> b.issued && c.started == c.inQueue == 0 && !b.claiming)
    && (b.queued || c.inQueue == 1 ==> b.tickets + c.atClaim + b.dropped == 1)
    && c.atClaim <= c.inQueue <= 1
    && (c.inQueue == 1 ==> c.started == 0 && (b.tickets == 1 ==> b.cancelled))
    && (b.cancelled ==> c.inQueue == 1)
    && c.started == c.byTask + (if b.stage.Some? then 1 else 0)
    && (b.active ==> b.stage == Some(Working))
    && (b.token ==> b.stage.Some? && !b.stage.value.Unmarking? && !b.stage.value.Ending?)
  }

  predicate Ledger(s: State, e: ExecId) {
    Balanced(BookOf(s, e))
  }

  ghost predicate Inv(s: State) {
    Exclusive(s) && forall e :: Ledger(s, e)
  }

  lemma EntryKeeps(s: State, job: JobId, exec: ExecId, e: ExecId)
    requires Ledger(s, e)
    ensures Ledger(Enter(s, job, exec), e)
  {
  }

  lemma SendKeeps(s: State, exec: ExecId, e: ExecId)
    requires Ledger(s, e)
    ensures Ledger(Send(s, exec), e)
  {
    if exec in s.unsent {
      RunsAppend(s.channel, Run(s.unsent[exec], exec), e);
    }
  }

  lemma ClientCancelBook(s: State, exec: ExecId, e: ExecId)
    ensures BookOf(RequestCancel(s, exec), e) == BookOf(s, e)
  {
    RunsAppend(s.channel, Cancel(exec), e);
  }

  lemma ClientCancelKeeps(s: State, exec: ExecId, e: ExecId)
    requires Ledger(s, e)
    ensures Ledger(RequestCancel(s, exec), e)
  {
    ClientCancelBook(s, exec, e);
  }

  /** The books of a queued execution once it is cancelled. */
  function QueuedCancelled(b: Book): Book {
    b.(queued := false, cancelled := true, counts := b.counts.(inQueue := b.counts.inQueue + 1))
  }

  lemma QueuedCancelBook(s: State, exec: ExecId, e: ExecId)
    requires exec !in s.tokens && exec in s.queued
    ensures e == exec ==> BookOf(HandleCancel(s, exec), e) == QueuedCancelled(BookOf(s, e))
    ensures e != exec ==> BookOf(HandleCancel(s, exec), e) == BookOf(s, e)
  {
    var s' := s.(queued := s.queued - {exec}, cancelled := s.cancelled + {exec},
                 record := Noted(s.record, Completed(exec, InQueue)));
    NotedCounts(s.record.log, Completed(exec, InQueue), e);
    assert s'.record.log == s.record.log + [Completed(exec, InQueue)];
    assert CountsOf(s'.record.log, e) == Counted(CountsOf(s.record.log, e), Completed(exec, InQueue), e);
    assert s' == HandleCancel(s, exec);
  }

  lemma QueuedCancelBalanced(b: Book)
    requires Balanced(b) && b.queued
    ensures Balanced(QueuedCancelled(b))
  {
  }

  lemma BalancedLedger(s: State, e: ExecId, b: Book)
    requires BookOf(s, e) == b && Balanced(b)
    ensures Ledger(s, e)
  {
  }

  lemma QueuedCancelKeeps(s: State, exec: ExecId, e: ExecId)
    requires Ledger(s, e) && exec !in s.tokens && exec in s.queued
    ensures Ledger(HandleCancel(s, exec), e)
  {
    var b := BookOf(s, e);
    QueuedCancelBook(s, exec, e);
    if e == exec {
      assert b.queued;
      QueuedCancelBalanced(b);
      BalancedLedger(HandleCancel(s, exec), e, QueuedCancelled(b));
    } else {
      BalancedLedger(HandleCancel(s, exec), e, b);
    }
  }

  lemma HandleCancelKeeps(s: State, exec: ExecId, e: ExecId)
    requires Ledger(s, e)
    ensures Ledger(HandleCancel(s, exec), e)
  {
    var s', b := HandleCancel(s, exec), BookOf(s, e);
    if exec in s.tokens {
      assert Tickets(s', e) == Tickets(s, e);
      assert BookOf(s', e) == if e == exec then b.(token := false) else b;
    } else if exec in s.queued {
      QueuedCancelKeeps(s, exec, e);
    }
  }

  /** The books of an execution see of the worker only what it holds. */
  lemma WorkerKeeps(s: State, worker: Worker, e: ExecId)
    requires Ledger(s, e) && InHand(worker, e) == InHand(s.worker, e)
    requires (worker.Claiming? && worker.exec == e) == (s.worker.Claiming? && s.worker.exec == e)
    ensures BookOf(s.(worker := worker), e) == BookOf(s, e)
  {
  }

  lemma TakeKeeps(s: State, e: ExecId)
    requires Ledger(s, e) && s.worker.Top? && s.pending != []
    ensures var n := |s.pending| - 1; Ledger(s.(worker := Holding(s.pending[n]), pending := s.pending[..n]), e)
  {
    var n := |s.pending| - 1;
    var s' := s.(worker := Holding(s.pending[n]), pending := s.pending[..n]);
    assert Runs(s.pending, e) == Runs(s.pending[..n], e) + (if InHand(Holding(s.pending[n]), e) then 1 else 0);
    assert Tickets(s', e) == Tickets(s, e);
    assert BookOf(s', e) == BookOf(s, e);
  }

  lemma LookKeeps(s: State, e: ExecId)
    requires Ledger(s, e) && s.worker.Top?
    ensures Ledger(LookAround(s), e)
  {
    if s.paused {
      WorkerKeeps(s, Parked, e);
    } else if s.pending != [] {
      TakeKeeps(s, e);
    } else {
      WorkerKeeps(s, Waiting, e);
    }
  }

  lemma ParkKeeps(s: State, e: ExecId)
    requires Ledger(s, e) && s.channel != [] && s.worker.Parked? && s.channel[0].Run?
    ensures Ledger(ReceiveMessage(s), e)
  {
    var message, s' := s.channel[0], ReceiveMessage(s);
    RunsHead(s.channel, e);
    RunsAppend(s.pending, message, e);
    assert Tickets(s', e) == Tickets(s, e);
    assert BookOf(s', e) == BookOf(s, e);
  }

  lemma ParkedCancelKeeps(s: State, e: ExecId)
    requires Ledger(s, e) && s.channel != [] && s.worker.Parked? && s.channel[0].Cancel?
    ensures Ledger(ReceiveMessage(s), e)
  {
    var s' := s.(channel := s.channel[1..], worker := Top);
    RunsHead(s.channel, e);
    assert Tickets(s', e) == Tickets(s, e);
    assert BookOf(s', e) == BookOf(s, e);
    HandleCancelKeeps(s', s.channel[0].exec, e);
  }

  lemma ReceiveKeeps(s: State, e: ExecId)
    requires Ledger(s, e)
    ensures Ledger(ReceiveMessage(s), e)
  {
    if s.channel != [] && s.worker.Parked? {
      if s.channel[0].Run? {
        ParkKeeps(s, e);
      } else {
        ParkedCancelKeeps(s, e);
      }
    } else if s.channel != [] && s.worker.Waiting? {
      var s' := ReceiveMessage(s);
      RunsHead(s.channel, e);
      assert Tickets(s', e) == Tickets(s, e);
      assert BookOf(s', e) == BookOf(s, e);
    }
  }

  lemma ClaimBook(s: State, job: JobId, exec: ExecId, e: ExecId)
    requires s.worker == Holding(Run(job, exec))
    ensures var s', b := s.(worker := Claiming(job, exec), queued := s.queued - {exec}), BookOf(s, e);
            BookOf(s', e) == if e == exec then b.(claiming := true, queued := false) else b
  {
    var s' := s.(worker := Claiming(job, exec), queued := s.queued - {exec});
    assert InHand(s'.worker, e) == InHand(s.worker, e);
    assert Tickets(s', e) == Tickets(s, e);
  }

  lemma HeldTicket(s: State, e: ExecId)
    requires InHand(s.worker, e)
    ensures BookOf(s, e).tickets > 0
  {
  }

  lemma ClaimBalanced(b: Book)
    requires Balanced(b) && b.tickets > 0
    ensures Balanced(b.(claiming := true, queued := false))
  {
  }

  lemma ClaimKeeps(s: State, job: JobId, exec: ExecId, e: ExecId)
    requires Ledger(s, e) && s.worker == Holding(Run(job, exec))
    ensures Ledger(HandleMessage(s, Run(job, exec)), e)
  {
    ClaimBook(s, job, exec, e);
    if e == exec {
      HeldTicket(s, e);
      ClaimBalanced(BookOf(s, e));
    }
  }

  lemma HandleKeeps(s: State, e: ExecId)
    requires Ledger(s, e) && s.worker.Holding?
    ensures Ledger(HandleMessage(s, s.worker.message), e)
  {
    match s.worker.message
    case Run(job, exec) => ClaimKeeps(s, job, exec, e);
    case Cancel(exec) =>
      WorkerKeeps(s, Top, e);
      HandleCancelKeeps(s.(worker := Top), exec, e);
  }

  lemma ClaimedTicket(s: State, job: JobId, exec: ExecId)
    requires s.worker == Claiming(job, exec)
    ensures BookOf(s, exec).claiming && BookOf(s, exec).tickets > 0
  {
  }

  /** The worker drops a cancelled run. */
  lemma CancelledDropBook(s: State, job: JobId, exec: ExecId, e: ExecId)
    requires s.worker == Claiming(job, exec) && exec in s.cancelled && BookOf(s, exec).tickets > 0
    ensures var b := BookOf(s, e);
            BookOf(LaunchRun(s, job, exec), e)
            == if e == exec then
                 b.(tickets := b.tickets - 1, claiming := false, cancelled := false,
                    counts := b.counts.(atClaim := b.counts.atClaim + 1))
               else b
  {
    NotedCounts(s.record.log, Completed(exec, AtClaim), e);
  }

  /** The worker drops a second run of a job. */
  lemma SecondDropBook(s: State, job: JobId, exec: ExecId, e: ExecId)
    requires s.worker == Claiming(job, exec) && exec !in s.cancelled && job in s.running && BookOf(s, exec).tickets > 0
    ensures var b := BookOf(s, e);
            BookOf(LaunchRun(s, job, exec), e) == if e == exec then b.(tickets := b.tickets - 1, claiming := false) else b
  {
  }

  lemma StartBook(s: State, job: JobId, exec: ExecId, e: ExecId)
    requires s.worker == Claiming(job, exec) && exec !in s.cancelled && job !in s.running && BookOf(s, exec).tickets > 0
    ensures var b := BookOf(s, e);
            BookOf(LaunchRun(s, job, exec), e)
            == if e == exec then
                 b.(tickets := b.tickets - 1, claiming := false, counts := b.counts.(started := b.counts.started + 1),
                    stage := Some(Working), token := true)
               else b
  {
    NotedCounts(s.record.log, Started(exec), e);
  }

  lemma LaunchBalanced(b: Book)
    requires Balanced(b) && b.claiming && b.tickets > 0
    ensures b.cancelled
            ==> Balanced(b.(tickets := b.tickets - 1, claiming := false, cancelled := false,
                            counts := b.counts.(atClaim := b.counts.atClaim + 1)))
    ensures !b.cancelled ==> Balanced(b.(tickets := b.tickets - 1, claiming := false))
    ensures !b.cancelled
            ==> Balanced(b.(tickets := b.tickets - 1, claiming := false, counts := b.counts.(started := b.counts.started + 1),
                            stage := Some(Working), token := true))
  {
  }

  lemma LaunchKeeps(s: State, job: JobId, exec: ExecId, e: ExecId)
    requires Ledger(s, e) && s.worker == Claiming(job, exec)
    ensures Ledger(LaunchRun(s, job, exec), e)
  {
    ClaimedTicket(s, job, exec);
    if exec in s.cancelled {
      CancelledDropBook(s, job, exec, e);
    } else if job in s.running {
      SecondDropBook(s, job, exec, e);
    } else {
      StartBook(s, job, exec, e);
    }
    if e == exec {
      LaunchBalanced(BookOf(s, e));
    }
  }

  /** What no step of a task touches. */
  lemma TaskFrame(s: State, ev: Event)
    requires OfTask(ev)
    ensures var s' := TaskStep(s, ev);
            && s'.channel == s.channel && s'.pending == s.pending && s'.unsent == s.unsent && s'.worker == s.worker
            && s'.queued == s.queued && s'.paused == s.paused
            && s'.record.dropped == s.record.dropped && s'.record.issued == s.record.issued
  {
  }

  /** What a step of a task leaves alone of other executions. */
  lemma TaskApart(s: State, ev: Event, e: ExecId)
    requires OfTask(ev) && ev.exec != e
    ensures var s' := TaskStep(s, ev);
            && (e in s'.tasks <==> e in s.tasks) && (e in s.tasks ==> s'.tasks[e] == s.tasks[e])
            && (e in s'.tokens <==> e in s.tokens) && (e in s'.active <==> e in s.active)
            && (e in s'.cancelled <==> e in s.cancelled)
  {
  }

  lemma TaskNotices(s: State, ev: Event)
    requires OfTask(ev)
    ensures var s' := TaskStep(s, ev);
            || s'.record.log == s.record.log
            || s'.record.log == s.record.log + [Progress(ev.exec)]
            || s'.record.log == s.record.log + [Completed(ev.exec, ByTask)]
  {
  }

  /** A step of a task touches the books of its own execution only. */
  lemma TaskElsewhere(s: State, ev: Event, e: ExecId)
    requires OfTask(ev) && ev.exec != e
    ensures BookOf(TaskStep(s, ev), e) == BookOf(s, e)
  {
    TaskFrame(s, ev);
    TaskApart(s, ev, e);
    TaskNotices(s, ev);
    NotedCounts(s.record.log, Progress(ev.exec), e);
    NotedCounts(s.record.log, Completed(ev.exec, ByTask), e);
  }

  lemma TaskProgressKeeps(s: State, e: ExecId)
    requires Ledger(s, e)
    ensures Ledger(TaskStep(s, TaskProgress(e)), e)
  {
    NotedCounts(s.record.log, Progress(e), e);
    assert AtStage(s, e, Working) ==> BookOf(TaskStep(s, TaskProgress(e)), e) == BookOf(s, e).(active := true);
  }

  lemma TaskLeaveKeeps(s: State, ok: bool, e: ExecId)
    requires Ledger(s, e)
    ensures Ledger(TaskStep(s, TaskLeave(e, ok)), e)
  {
    if AtStage(s, e, Working) {
      assert BookOf(TaskStep(s, TaskLeave(e, ok)), e) == BookOf(s, e).(active := false, stage := Some(Leaving(ok)));
    }
  }

  lemma TaskUnlistKeeps(s: State, e: ExecId)
    requires Ledger(s, e)
    ensures Ledger(TaskStep(s, TaskUnlist(e)), e)
  {
    if IsLeaving(s, e) {
      assert BookOf(TaskStep(s, TaskUnlist(e)), e) == BookOf(s, e).(stage := Some(Unlisted(s.tasks[e].stage.ok)));
    }
  }

  lemma TaskDetachKeeps(s: State, e: ExecId)
    requires Ledger(s, e)
    ensures Ledger(TaskStep(s, TaskDetach(e)), e)
  {
    if IsUnlisted(s, e) {
      assert BookOf(TaskStep(s, TaskDetach(e)), e)
             == BookOf(s, e).(token := false, stage := Some(if s.tasks[e].stage.ok then Ending else Unmarking));
    }
  }

  lemma TaskUnmarkKeeps(s: State, e: ExecId)
    requires Ledger(s, e)
    ensures Ledger(TaskStep(s, TaskUnmark(e)), e)
  {
    if AtStage(s, e, Unmarking) {
      assert BookOf(TaskStep(s, TaskUnmark(e)), e) == BookOf(s, e).(cancelled := false, stage := Some(Ending));
    }
  }

  lemma TaskReportKeeps(s: State, e: ExecId)
    requires Ledger(s, e)
    ensures Ledger(TaskStep(s, TaskReport(e)), e)
  {
    if AtStage(s, e, Ending) {
      var b := BookOf(s, e);
      NotedCounts(s.record.log, Completed(e, ByTask), e);
      assert BookOf(TaskStep(s, TaskReport(e)), e) == b.(stage := None, counts := b.counts.(byTask := b.counts.byTask + 1));
    }
  }

  lemma TaskKeeps(s: State, ev: Event, e: ExecId)
    requires OfTask(ev)
    requires Ledger(s, e)
    ensures Ledger(TaskStep(s, ev), e)
  {
    if ev.exec != e {
      TaskElsewhere(s, ev, e);
    } else {
      match ev
      case TaskProgress(_) => TaskProgressKeeps(s, e);
      case TaskLeave(_, ok) => TaskLeaveKeeps(s, ok, e);
      case TaskUnlist(_) => TaskUnlistKeeps(s, e);
      case TaskDetach(_) => TaskDetachKeeps(s, e);
      case TaskUnmark(_) => TaskUnmarkKeeps(s, e);
      case TaskReport(_) => TaskReportKeeps(s, e);
    }
  }

  lemma ClearKeeps(s: State, e: ExecId)
    requires Ledger(s, e)
    ensures Ledger(Clear(s), e)
  {
    var cleared := Runs(s.pending, e);
    var s', b := Clear(s), BookOf(s, e);
    RunsConcat(s.record.dropped, s.pending, e);
    assert Tickets(s', e) == b.tickets - cleared;
    assert BookOf(s', e) == b.(tickets := b.tickets - cleared, dropped := b.dropped + cleared);
  }

  lemma SignalKeeps(s: State, paused: bool, worker: Worker, e: ExecId)
    requires Ledger(s, e) && (worker == s.worker || (s.worker.Parked? && worker.Top?))
    ensures Ledger(s.(paused := paused, worker := worker), e)
  {
    var s' := s.(paused := paused, worker := worker);
    assert Tickets(s', e) == Tickets(s, e);
    assert BookOf(s', e) == BookOf(s, e);
  }

  lemma LedgerKept(s: State, ev: Event, e: ExecId)
    requires Ledger(s, e)
    ensures Ledger(Step(s, ev), e)
  {
    match ev
    case EnqueueEntry(job, exec) => EntryKeeps(s, job, exec, e);
    case EnqueueSend(exec) => SendKeeps(s, exec, e);
    case ClientCancel(exec) => ClientCancelKeeps(s, exec, e);
    case Pause => SignalKeeps(s, true, s.worker, e);
    case Resume => SignalKeeps(s, false, s.worker, e);
    case ClearPending => ClearKeeps(s, e);
    case Look =>
      if s.worker.Top? {
        LookKeeps(s, e);
      }
    case Wake =>
      if s.worker.Parked? {
        SignalKeeps(s, s.paused, Top, e);
      }
    case Receive => ReceiveKeeps(s, e);
    case Handle =>
      if s.worker.Holding? {
        HandleKeeps(s, e);
      }
    case Launch =>
      if s.worker.Claiming? {
        LaunchKeeps(s, s.worker.job, s.worker.exec, e);
      }
    case _ => TaskKeeps(s, ev, e);
  }

  lemma ExclusiveElsewhere(s: State, s': State)
    requires Exclusive(s) && s'.tasks == s.tasks && s'.running == s.running
    ensures Exclusive(s')
  {
  }

  lemma StartExclusive(s: State, job: JobId, exec: ExecId)
    requires Exclusive(s) && Ledger(s, exec) && s.worker == Claiming(job, exec)
    ensures Exclusive(LaunchRun(s, job, exec))
  {
    var s' := LaunchRun(s, job, exec);
    if exec in s.cancelled || job in s.running {
      ExclusiveElsewhere(s, s');
    } else {
      assert BookOf(s, exec).claiming;
      assert exec !in s.tasks;
      assert s'.tasks == s.tasks[exec := Task(job, Working)] && s'.running == s.running[job := exec];
    }
  }

  lemma TaskExclusive(s: State, ev: Event)
    requires OfTask(ev)
    requires Exclusive(s)
    ensures Exclusive(TaskStep(s, ev))
  {
  }

  /** Two states that differ in neither tasks nor pause nor cleared messages. */
  predicate SameTasks(s: State, s': State) {
    s'.tasks == s.tasks && s'.running == s.running && s'.paused == s.paused && s'.record.dropped == s.record.dropped
  }

  /** What treating a cancel message leaves alone. */
  lemma CancelFrame(s: State, exec: ExecId)
    ensures var s' := HandleCancel(s, exec); SameTasks(s, s') && s'.worker == s.worker
  {
  }

  lemma ReceiveFrame(s: State)
    ensures var s' := ReceiveMessage(s);
            && SameTasks(s, s')
            && (s'.worker == s.worker || (s.worker.Waiting? && s'.worker.Holding?) || (s.worker.Parked? && s'.worker.Top?))
  {
    if s.channel != [] && s.channel[0].Cancel? {
      CancelFrame(s.(channel := s.channel[1..], worker := Top), s.channel[0].exec);
    }
  }

  lemma HandleFrame(s: State, message: Message)
    ensures var s' := HandleMessage(s, message); SameTasks(s, s') && (s'.worker.Claiming? || s'.worker.Top?)
  {
    if message.Cancel? {
      CancelFrame(s.(worker := Top), message.exec);
    }
  }

  lemma TasksElsewhere(s: State, ev: Event)
    requires !(ev.Launch? && s.worker.Claiming?) && !OfTask(ev)
    ensures Step(s, ev).tasks == s.tasks && Step(s, ev).running == s.running
  {
    match ev
    case Receive => ReceiveFrame(s);
    case Handle =>
      if s.worker.Holding? {
        HandleFrame(s, s.worker.message);
      }
    case _ =>
  }

  lemma ExclusiveKept(s: State, ev: Event)
    requires Inv(s)
    ensures Exclusive(Step(s, ev))
  {
    if ev.Launch? && s.worker.Claiming? {
      StartExclusive(s, s.worker.job, s.worker.exec);
    } else if OfTask(ev) {
      TaskExclusive(s, ev);
    } else {
      TasksElsewhere(s, ev);
      ExclusiveElsewhere(s, Step(s, ev));
    }
  }

  lemma InvKept(s: State, ev: Event)
    requires Inv(s)
    ensures Inv(Step(s, ev))
  {
    ExclusiveKept(s, ev);
    forall e ensures Ledger(Step(s, ev), e) {
      LedgerKept(s, ev, e);
    }
  }

  lemma {:induction false} InvAlways(es: seq<Event>)
    ensures Inv(Steps(INITIAL, es))
    decreases |es|
  {
    if es != [] {
      InvAlways(es[..|es| - 1]);
      InvKept(Steps(INITIAL, es[..|es| - 1]), es[|es| - 1]);
    } else {
      forall e ensures Ledger(INITIAL, e) {
      }
    }
  }

  // ---- mutual exclusion ----

  /** In every reachable state a job has at most one live task, and `running` maps exactly the jobs of
      live tasks to their executions. */
  lemma MutualExclusion(es: seq<Event>)
    ensures var s := Steps(INITIAL, es);
            && (forall d, e :: Live(s, d) && Live(s, e) && s.tasks[d].job == s.tasks[e].job ==> d == e)
            && (forall j, e :: (j in s.running && s.running[j] == e) <==> (Live(s, e) && s.tasks[e].job == j))
  {
    InvAlways(es);
  }

  // ---- starts and completions ----

  function Completions(c: Counts): nat {
    c.inQueue + c.atClaim + c.byTask
  }

  lemma BalancedCompletions(b: Book)
    requires Balanced(b)
    ensures var c := b.counts;
            && c.started + c.inQueue <= 1
            && (c.started == 1 ==> Completions(c) == if b.stage.Some? then 0 else 1)
            && (c.inQueue == 1 ==> Completions(c) == if b.tickets + b.dropped == 0 then 2 else 1)
            && (c.started == c.inQueue == 0 ==> Completions(c) == 0)
  {
  }

  /** In every reachable state an execution has started at most once, and never when it was cancelled
      in the queue. One that started has completed exactly once if its task is over, and not yet
      otherwise. One cancelled in the queue has completed once while its run message is on its way, and
      twice when it is not, unless the message was cleared. Any other has not completed at all. */
  lemma StartsAndCompletions(es: seq<Event>, e: ExecId)
    ensures var s := Steps(INITIAL, es); var c := CountsOf(s.record.log, e);
            && c.started + c.inQueue <= 1
            && (c.started == 1 ==> Completions(c) == if e in s.tasks then 0 else 1)
            && (c.inQueue == 1 ==> Completions(c) == if Tickets(s, e) + Runs(s.record.dropped, e) == 0 then 2 else 1)
            && (c.started == c.inQueue == 0 ==> Completions(c) == 0)
  {
    var s := Steps(INITIAL, es);
    InvAlways(es);
    assert Ledger(s, e);
    BalancedCompletions(BookOf(s, e));
  }

  /** Only `stop_all` clears messages. */
  lemma {:induction false} NothingDropped(es: seq<Event>)
    requires ClearPending !in es
    ensures Steps(INITIAL, es).record.dropped == []
    decreases |es|
  {
    if es != [] {
      var before, ev := es[..|es| - 1], es[|es| - 1];
      assert ev in es && forall x <- before :: x in es;
      NothingDropped(before);
      DroppedElsewhere(Steps(INITIAL, before), ev);
    }
  }

  /** Without `stop_all`, an execution cancelled in the queue completes a second time exactly when the
      worker has met its run message. */
  lemma CancelledCompletesTwice(es: seq<Event>, e: ExecId)
    requires ClearPending !in es && CountsOf(Steps(INITIAL, es).record.log, e).inQueue == 1
    ensures var s := Steps(INITIAL, es);
            Completions(CountsOf(s.record.log, e)) == if Tickets(s, e) == 0 then 2 else 1
  {
    StartsAndCompletions(es, e);
    NothingDropped(es);
  }

  lemma DroppedElsewhere(s: State, ev: Event)
    requires !ev.ClearPending?
    ensures Step(s, ev).record.dropped == s.record.dropped
  {
    if OfTask(ev) {
      TaskFrame(s, ev);
    } else {
      match ev
      case Receive => ReceiveFrame(s);
      case Handle =>
        if s.worker.Holding? {
          HandleFrame(s, s.worker.message);
        }
      case _ =>
    }
  }

  /** One more event of a run. */
  lemma Then(es: seq<Event>, s: State, ev: Event) returns (es': seq<Event>, s': State)
    requires s == Steps(INITIAL, es)
    ensures s' == Step(s, ev) == Steps(INITIAL, es')
  {
    es', s' := es + [ev], Step(s, ev);
    assert es'[..|es|] == es;
  }

  /** The state in which a run message is parked and its cancel message is next. */
  function CancelBehindParked(job: JobId, exec: ExecId): State {
    INITIAL.(channel := [Cancel(exec)], queued := map[exec := job], paused := true, pending := [Run(job, exec)],
             record := Record(map[exec := job], {}, [], []))
  }

  lemma ReachSent(job: JobId, exec: ExecId) returns (es: seq<Event>, s: State)
    ensures s == Steps(INITIAL, es)
    ensures s == INITIAL.(channel := [Run(job, exec)], queued := map[exec := job], record := Record(map[exec := job], {}, [], []))
  {
    es, s := Then([], INITIAL, EnqueueEntry(job, exec));
    es, s := Then(es, s, EnqueueSend(exec));
  }

  lemma ReachParked(job: JobId, exec: ExecId) returns (es: seq<Event>)
    ensures Steps(INITIAL, es) == CancelBehindParked(job, exec)
  {
    var s;
    es, s := ReachSent(job, exec);
    es, s := Then(es, s, ClientCancel(exec));
    assert s.channel == [Run(job, exec), Cancel(exec)];
    es, s := Then(es, s, Pause);
    es, s := Then(es, s, Look);
    es, s := Then(es, s, Receive);
  }

  /** The state after the cancel message is handled. */
  function CancelledWhileParked(job: JobId, exec: ExecId): State {
    INITIAL.(cancelled := {exec}, paused := true, pending := [Run(job, exec)],
             record := Record(map[exec := job], {}, [], [Completed(exec, InQueue)]))
  }

  lemma ReachCancelled(job: JobId, exec: ExecId) returns (es: seq<Event>)
    ensures Steps(INITIAL, es) == CancelledWhileParked(job, exec)
  {
    es := ReachParked(job, exec);
    var s := CancelBehindParked(job, exec);
    es, s := Then(es, s, Look);
    assert s == CancelBehindParked(job, exec).(worker := Parked);
    es, s := Then(es, s, Receive);
    assert map[exec := job] - {exec} == map[];
  }

  /** A run with two Completed events for one execution: its cancel message is handled while its run
      message is parked. */
  lemma TwoCompletions(job: JobId, exec: ExecId) returns (es: seq<Event>)
    ensures Steps(INITIAL, es).record.log == [Completed(exec, InQueue), Completed(exec, AtClaim)]
  {
    es := ReachCancelled(job, exec);
    var s := CancelledWhileParked(job, exec);
    es, s := Then(es, s, Resume);
    es, s := Then(es, s, Look);
    assert s == CancelledWhileParked(job, exec).(paused := false, pending := [], worker := Holding(Run(job, exec)));
    es, s := Then(es, s, Handle);
    assert s.worker == Claiming(job, exec) && s.cancelled == {exec} && s.record.log == [Completed(exec, InQueue)];
    es, s := Then(es, s, Launch);
  }

  lemma {:induction false} StepsConcat(s: State, a: seq<Event>, b: seq<Event>)
    ensures Steps(s, a + b) == Steps(Steps(s, a), b)
    decreases |b|
  {
    if b == [] {
      assert a + b == a;
    } else {
      StepsConcat(s, a, b[..|b| - 1]);
      assert (a + b)[..|a + b| - 1] == a + b[..|b| - 1];
    }
  }

  /** What a state must hold for a notice to be sent. */
  predicate Source(s: State, x: Notice) {
    match x
    case Started(e) => s.worker.Claiming? && s.worker.exec == e
    case Progress(e) => AtStage(s, e, Working)
    case Completed(e, InQueue) => e in s.queued
    case Completed(e, AtClaim) => s.worker.Claiming? && s.worker.exec == e
    case Completed(e, ByTask) => AtStage(s, e, Ending)
  }

  /** Between two states at most one notice was sent, and the first had its source. */
  predicate Sent(s: State, s': State, sent: seq<Notice>) {
    && s'.record.log == s.record.log + sent && |sent| <= 1
    && (sent != [] ==> Source(s, sent[0]) && (sent[0].Started? ==> s'.worker.Top?))
  }

  lemma SentByCancel(s: State, t: State, exec: ExecId) returns (sent: seq<Notice>)
    requires t.record.log == s.record.log && t.queued == s.queued
    ensures Sent(s, HandleCancel(t, exec), sent)
  {
    sent := if exec !in t.tokens && exec in t.queued then [Completed(exec, InQueue)] else [];
    assert s.record.log + [] == s.record.log;
  }

  lemma SentByLaunch(s: State, job: JobId, exec: ExecId) returns (sent: seq<Notice>)
    requires s.worker == Claiming(job, exec)
    ensures Sent(s, LaunchRun(s, job, exec), sent)
  {
    sent := if exec in s.cancelled then [Completed(exec, AtClaim)] else if job in s.running then [] else [Started(exec)];
    assert s.record.log + [] == s.record.log;
  }

  /** Every step sends at most one notice. */
  lemma StepSends(s: State, ev: Event) returns (sent: seq<Notice>)
    ensures Sent(s, Step(s, ev), sent)
  {
    sent := [];
    assert s.record.log + [] == s.record.log;
    match ev
    case TaskProgress(exec) =>
      if AtStage(s, exec, Working) {
        sent := [Progress(exec)];
      }
    case TaskReport(exec) =>
      if AtStage(s, exec, Ending) {
        sent := [Completed(exec, ByTask)];
      }
    case Launch =>
      if s.worker.Claiming? {
        sent := SentByLaunch(s, s.worker.job, s.worker.exec);
      }
    case Handle =>
      if s.worker.Holding? && s.worker.message.Cancel? {
        sent := SentByCancel(s, s.(worker := Top), s.worker.message.exec);
      }
    case Receive =>
      if s.channel != [] && s.worker.Parked? && s.channel[0].Cancel? {
        sent := SentByCancel(s, s.(channel := s.channel[1..], worker := Top), s.channel[0].exec);
      }
    case _ =>
  }

  predicate AtMost(c: Counts, d: Counts) {
    c.started <= d.started && c.inQueue <= d.inQueue && c.atClaim <= d.atClaim && c.byTask <= d.byTask
  }

  lemma {:induction false} CountsGrow(s: State, es: seq<Event>, e: ExecId)
    ensures AtMost(CountsOf(s.record.log, e), CountsOf(Steps(s, es).record.log, e))
    decreases |es|
  {
    if es != [] {
      var t := Steps(s, es[..|es| - 1]);
      CountsGrow(s, es[..|es| - 1], e);
      var sent := StepSends(t, es[|es| - 1]);
      if sent == [] {
        assert t.record.log + sent == t.record.log;
      } else {
        assert sent == [sent[0]];
        NotedCounts(t.record.log, sent[0], e);
      }
    }
  }

  /** An execution cancelled while queued never starts afterwards, however the run goes on. */
  lemma CancelledNeverStarts(es: seq<Event>, more: seq<Event>, e: ExecId)
    requires CountsOf(Steps(INITIAL, es).record.log, e).inQueue > 0
    ensures CountsOf(Steps(INITIAL, es + more).record.log, e).started == 0
  {
    StepsConcat(INITIAL, es, more);
    CountsGrow(Steps(INITIAL, es), more, e);
    StartsAndCompletions(es + more, e);
  }

  /** A notice at its place in the log: nothing follows a task's Completed, and a task's notices follow
      its one start. */
  predicate InPlace(before: seq<Notice>, x: Notice) {
    && CountsOf(before, x.exec).byTask == 0
    && (x.Progress? || x == Completed(x.exec, ByTask) ==> CountsOf(before, x.exec).started == 1)
  }

  ghost predicate WellOrdered(log: seq<Notice>) {
    forall j :: 0 <= j < |log| ==> InPlace(log[..j], log[j])
  }

  lemma NextInPlace(s: State, x: Notice)
    requires Ledger(s, x.exec) && Source(s, x)
    ensures InPlace(s.record.log, x)
  {
    var b := BookOf(s, x.exec);
    assert Balanced(b);
  }

  lemma WellOrderedAppend(log: seq<Notice>, x: Notice)
    requires WellOrdered(log) && InPlace(log, x)
    ensures WellOrdered(log + [x])
  {
    forall j | 0 <= j < |log + [x]| ensures InPlace((log + [x])[..j], (log + [x])[j]) {
      assert (log + [x])[..j] == log[..j];
      assert log[..|log|] == log;
    }
  }

  /** Over every run, a task's Completed is its last notice. */
  lemma {:induction false} CompletedComesLast(es: seq<Event>)
    ensures WellOrdered(Steps(INITIAL, es).record.log)
    decreases |es|
  {
    if es != [] {
      var before, ev := es[..|es| - 1], es[|es| - 1];
      CompletedComesLast(before);
      InvAlways(before);
      var s := Steps(INITIAL, before);
      var sent := StepSends(s, ev);
      if sent == [] {
        assert s.record.log + sent == s.record.log;
      } else {
        assert sent == [sent[0]];
        NextInPlace(s, sent[0]);
        WellOrderedAppend(s.record.log, sent[0]);
      }
    }
  }

  // ---- pausing ----

  function Starts(log: seq<Notice>): nat {
    if log == [] then 0 else Starts(log[..|log| - 1]) + (if log[|log| - 1].Started? then 1 else 0)
  }

  lemma StartsAppend(log: seq<Notice>, x: Notice)
    ensures Starts(log + [x]) == Starts(log) + (if x.Started? then 1 else 0)
  {
    assert (log + [x])[..|log|] == log;
  }

  /** A worker past its look at the pause flag may still start one run. */
  function PastTheCheck(worker: Worker): nat {
    if worker.Top? || worker.Parked? then 0 else 1
  }

  /** While the flag is up, the worker does not get past the check again. */
  lemma PausedWorker(s: State, ev: Event)
    requires s.paused && !ev.Resume?
    ensures Step(s, ev).paused && PastTheCheck(Step(s, ev).worker) <= PastTheCheck(s.worker)
  {
    if OfTask(ev) {
      TaskFrame(s, ev);
    } else {
      match ev
      case Receive => ReceiveFrame(s);
      case Handle =>
        if s.worker.Holding? {
          HandleFrame(s, s.worker.message);
        }
      case _ =>
    }
  }

  lemma PausedStep(s: State, ev: Event)
    requires s.paused && !ev.Resume?
    ensures var s' := Step(s, ev);
            s'.paused && Starts(s'.record.log) + PastTheCheck(s'.worker) <= Starts(s.record.log) + PastTheCheck(s.worker)
  {
    PausedWorker(s, ev);
    var sent := StepSends(s, ev);
    if sent == [] {
      assert s.record.log + sent == s.record.log;
    } else {
      assert sent == [sent[0]];
      StartsAppend(s.record.log, sent[0]);
    }
  }

  lemma {:induction false} PausedSteps(s: State, es: seq<Event>)
    requires s.paused && forall ev <- es :: !ev.Resume?
    ensures var s' := Steps(s, es);
            s'.paused && Starts(s'.record.log) + PastTheCheck(s'.worker) <= Starts(s.record.log) + PastTheCheck(s.worker)
    decreases |es|
  {
    if es != [] {
      PausedSteps(s, es[..|es| - 1]);
      PausedStep(Steps(s, es[..|es| - 1]), es[|es| - 1]);
    }
  }

  /** Between a pause and the next resume at most one execution starts, and none when the worker was
      at its loop top or already parked. */
  lemma PauseHolds(s: State, es: seq<Event>)
    requires forall ev <- es :: !ev.Resume?
    ensures var started := Starts(Steps(Step(s, Pause), es).record.log);
            && started <= Starts(s.record.log) + 1
            && (s.worker.Top? || s.worker.Parked? ==> started <= Starts(s.record.log))
  {
    PausedSteps(Step(s, Pause), es);
  }
}
