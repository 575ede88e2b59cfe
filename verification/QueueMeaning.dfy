/** What cancelling, queueing and the marks of a task mean over every run of the job queue. */
module QueueMeaning {
  import opened Wrappers
  import opened Queue
  import opened QueueSafety

  // ---- marks of a task ----

  /** What a state says of one execution: how often it started, how far its task is, and its marks. */
  datatype Tie = Tie(started: nat, stage: Option<Stage>, token: bool, tripped: bool, active: bool, progressed: bool)

  function TieOf(s: State, e: ExecId): Tie {
    Tie(CountsOf(s.record.log, e).started, if e in s.tasks then Some(s.tasks[e].stage) else None, e in s.tokens,
        e in s.record.tripped, e in s.active, Progress(e) in s.record.log)
  }

  /** A task holds its token until it gives it up or is cancelled, and is active from its first progress
      until it is over; only what started has marks. */
  predicate Tied(t: Tie) {
    && (t.stage.Some? || t.tripped || t.progressed ==> t.started == 1)
    && (t.token <==> !t.tripped && t.stage.Some?
                     && (t.stage.value.Working? || t.stage.value.Leaving? || t.stage.value.Unlisted?))
    && (t.active <==> t.progressed && t.stage == Some(Working))
  }

  /** Steps that touch neither tasks nor notices nor tokens leave the marks alone. */
  lemma TieSame(s: State, s': State, e: ExecId)
    requires s'.record.log == s.record.log && s'.record.tripped == s.record.tripped
    requires s'.tasks == s.tasks && s'.tokens == s.tokens && s'.active == s.active
    ensures TieOf(s', e) == TieOf(s, e)
  {
  }

  /** A notice that is neither a start nor progress of an execution. */
  lemma TieNoted(log: seq<Notice>, x: Notice, e: ExecId)
    ensures x != Started(e) ==> CountsOf(log + [x], e).started == CountsOf(log, e).started
    ensures x == Started(e) ==> CountsOf(log + [x], e).started == CountsOf(log, e).started + 1
    ensures Progress(e) in log + [x] <==> Progress(e) in log || x == Progress(e)
  {
    NotedCounts(log, x, e);
  }

  lemma QueuedCancelTie(s: State, exec: ExecId, e: ExecId)
    requires exec !in s.tokens
    ensures TieOf(HandleCancel(s, exec), e) == TieOf(s, e)
  {
    TieNoted(s.record.log, Completed(exec, InQueue), e);
  }

  lemma CancelTie(s: State, exec: ExecId, e: ExecId)
    ensures var t := TieOf(s, e);
            TieOf(HandleCancel(s, exec), e) == if e == exec && t.token then t.(token := false, tripped := true) else t
  {
    if exec !in s.tokens {
      QueuedCancelTie(s, exec, e);
    }
  }

  lemma DroppedTie(s: State, job: JobId, exec: ExecId, e: ExecId)
    requires exec in s.cancelled || job in s.running
    ensures TieOf(LaunchRun(s, job, exec), e) == TieOf(s, e)
  {
    TieNoted(s.record.log, Completed(exec, AtClaim), e);
  }

  lemma StartedTie(s: State, job: JobId, exec: ExecId, e: ExecId)
    requires exec !in s.cancelled && job !in s.running
    ensures var t := TieOf(s, e);
            TieOf(LaunchRun(s, job, exec), e)
            == if e == exec then t.(started := t.started + 1, stage := Some(Working), token := true) else t
  {
    TieNoted(s.record.log, Started(exec), e);
  }

  lemma TaskTieElsewhere(s: State, ev: Event, e: ExecId)
    requires OfTask(ev) && ev.exec != e
    ensures TieOf(TaskStep(s, ev), e) == TieOf(s, e)
  {
    TaskApart(s, ev, e);
    TaskUntripped(s, ev);
    TaskNotices(s, ev);
    TieNoted(s.record.log, Progress(ev.exec), e);
    TieNoted(s.record.log, Completed(ev.exec, ByTask), e);
  }

  lemma TaskUntripped(s: State, ev: Event)
    requires OfTask(ev)
    ensures TaskStep(s, ev).record.tripped == s.record.tripped
  {
  }

  lemma ProgressTie(s: State, e: ExecId)
    requires AtStage(s, e, Working)
    ensures TieOf(TaskStep(s, TaskProgress(e)), e) == TieOf(s, e).(active := true, progressed := true)
  {
    TieNoted(s.record.log, Progress(e), e);
  }

  lemma ReportTie(s: State, e: ExecId)
    requires AtStage(s, e, Ending)
    ensures TieOf(TaskStep(s, TaskReport(e)), e) == TieOf(s, e).(stage := None)
  {
    TieNoted(s.record.log, Completed(e, ByTask), e);
  }

  /** How a step on the way out of a task moves its stage and its marks. */
  lemma LeavingTie(s: State, ev: Event, e: ExecId)
    requires OfTask(ev) && !ev.TaskProgress? && !ev.TaskReport? && ev.exec == e
    ensures var t, t' := TieOf(s, e), TieOf(TaskStep(s, ev), e);
            || t' == t
            || (ev.TaskLeave? && t.stage == Some(Working) && t' == t.(active := false, stage := Some(Leaving(ev.ok))))
            || (ev.TaskUnlist? && t.stage.Some? && t.stage.value.Leaving?
                && t' == t.(stage := Some(Unlisted(t.stage.value.ok))))
            || (ev.TaskDetach? && t.stage.Some? && t.stage.value.Unlisted?
                && t' == t.(token := false, stage := Some(if t.stage.value.ok then Ending else Unmarking)))
            || (ev.TaskUnmark? && t.stage == Some(Unmarking) && t' == t.(stage := Some(Ending)))
  {
  }

  lemma TaskTie(s: State, ev: Event, e: ExecId)
    requires OfTask(ev) && Tied(TieOf(s, e))
    ensures Tied(TieOf(TaskStep(s, ev), e))
  {
    if ev.exec != e {
      TaskTieElsewhere(s, ev, e);
    } else if ev.TaskProgress? {
      if AtStage(s, e, Working) {
        ProgressTie(s, e);
      }
    } else if ev.TaskReport? {
      if AtStage(s, e, Ending) {
        ReportTie(s, e);
      }
    } else {
      LeavingTie(s, ev, e);
    }
  }

  lemma ReceiveTie(s: State, e: ExecId)
    requires Tied(TieOf(s, e))
    ensures Tied(TieOf(ReceiveMessage(s), e))
  {
    if s.channel != [] && s.worker.Parked? && s.channel[0].Cancel? {
      var s' := s.(channel := s.channel[1..], worker := Top);
      TieSame(s, s', e);
      CancelTie(s', s.channel[0].exec, e);
    } else {
      TieSame(s, ReceiveMessage(s), e);
    }
  }

  lemma HandleTie(s: State, message: Message, e: ExecId)
    requires Tied(TieOf(s, e))
    ensures Tied(TieOf(HandleMessage(s, message), e))
  {
    match message
    case Run(_, _) => TieSame(s, HandleMessage(s, message), e);
    case Cancel(exec) =>
      var s' := s.(worker := Top);
      TieSame(s, s', e);
      CancelTie(s', exec, e);
  }

  /** What starts has no mark yet. */
  lemma UnstartedTie(s: State, job: JobId, exec: ExecId)
    requires Ledger(s, exec) && s.worker == Claiming(job, exec)
    ensures TieOf(s, exec).started == 0
  {
    ClaimedTicket(s, job, exec);
    assert Balanced(BookOf(s, exec));
  }

  /** Steps of clients and of the worker that start and cancel nothing. */
  lemma OtherTie(s: State, ev: Event, e: ExecId)
    requires !OfTask(ev) && !ev.Receive? && !ev.Handle? && !ev.Launch?
    ensures TieOf(Step(s, ev), e) == TieOf(s, e)
  {
    match ev
    case EnqueueEntry(job, exec) => TieSame(s, Enter(s, job, exec), e);
    case EnqueueSend(exec) => TieSame(s, Send(s, exec), e);
    case ClientCancel(exec) => TieSame(s, RequestCancel(s, exec), e);
    case ClearPending => TieSame(s, Clear(s), e);
    case Look => TieSame(s, LookAround(s), e);
    case Wake => TieSame(s, s.(worker := Top), e);
    case Pause => TieSame(s, s.(paused := true), e);
    case Resume => TieSame(s, s.(paused := false), e);
  }

  lemma StepTied(s: State, ev: Event, e: ExecId)
    requires Ledger(s, e) && Tied(TieOf(s, e))
    ensures Tied(TieOf(Step(s, ev), e))
  {
    if OfTask(ev) {
      TaskTie(s, ev, e);
    } else {
      WorkerTied(s, ev, e);
    }
  }

  lemma WorkerTied(s: State, ev: Event, e: ExecId)
    requires !OfTask(ev) && Ledger(s, e) && Tied(TieOf(s, e))
    ensures Tied(TieOf(Step(s, ev), e))
  {
    if ev.Receive? {
      assert Step(s, ev) == ReceiveMessage(s);
      ReceiveTie(s, e);
    } else if ev.Handle? {
      HandleTied(s, e);
    } else if ev.Launch? {
      LaunchTied(s, e);
    } else {
      OtherTie(s, ev, e);
    }
  }

  lemma HandleTied(s: State, e: ExecId)
    requires Tied(TieOf(s, e))
    ensures Tied(TieOf(Step(s, Handle), e))
  {
    if s.worker.Holding? {
      HandleTie(s, s.worker.message, e);
    }
  }

  lemma LaunchTied(s: State, e: ExecId)
    requires Ledger(s, e) && Tied(TieOf(s, e))
    ensures Tied(TieOf(Step(s, Launch), e))
  {
    if s.worker.Claiming? {
      RunTied(s, s.worker.job, s.worker.exec, e);
    }
  }

  lemma RunTied(s: State, job: JobId, exec: ExecId, e: ExecId)
    requires Ledger(s, e) && Tied(TieOf(s, e)) && s.worker == Claiming(job, exec)
    ensures Tied(TieOf(LaunchRun(s, job, exec), e))
  {
    if exec in s.cancelled || job in s.running {
      DroppedTie(s, job, exec, e);
    } else {
      StartedTie(s, job, exec, e);
      if e == exec {
        UnstartedTie(s, job, e);
      }
    }
  }

  /** In every reachable state: an execution holds its token exactly while its task has not given it up
      and it was not cancelled, is active exactly while its task is at work and has made progress, and
      only an execution that started was cancelled by its token. */
  lemma {:induction false} MarksExact(es: seq<Event>, e: ExecId)
    ensures Tied(TieOf(Steps(INITIAL, es), e))
    decreases |es|
  {
    if es != [] {
      MarksExact(es[..|es| - 1], e);
      InvAlways(es[..|es| - 1]);
      StepTied(Steps(INITIAL, es[..|es| - 1]), es[|es| - 1], e);
    }
  }

  // ---- cancelling a running execution ----

  /** The worker meets a cancel message, in its hand or, while paused, in the channel. */
  predicate Meets(s: State, ev: Event, e: ExecId) {
    || (ev.Handle? && s.worker == Holding(Cancel(e)))
    || (ev.Receive? && s.worker.Parked? && s.channel != [] && s.channel[0] == Cancel(e))
  }

  lemma CancelTripped(s: State, exec: ExecId)
    ensures var s' := HandleCancel(s, exec);
            exec !in s'.tokens
            && s'.record.tripped == if exec in s.tokens then s.record.tripped + {exec} else s.record.tripped
  {
  }

  lemma ReceiveTripped(s: State, e: ExecId)
    ensures var s', met := ReceiveMessage(s), Meets(s, Receive, e);
            && (e in s'.record.tripped <==> e in s.record.tripped || (met && e in s.tokens))
            && (met ==> e !in s'.tokens)
  {
    if s.channel != [] && s.worker.Parked? && s.channel[0].Cancel? {
      CancelTripped(s.(channel := s.channel[1..], worker := Top), s.channel[0].exec);
    }
  }

  lemma HandleTripped(s: State, e: ExecId)
    requires s.worker.Holding?
    ensures var s', met := HandleMessage(s, s.worker.message), Meets(s, Handle, e);
            && (e in s'.record.tripped <==> e in s.record.tripped || (met && e in s.tokens))
            && (met ==> e !in s'.tokens)
  {
    if s.worker.message.Cancel? {
      CancelTripped(s.(worker := Top), s.worker.message.exec);
    }
  }

  /** A token is tripped exactly when the worker meets a cancel message of an execution that holds it. */
  lemma TrippedStep(s: State, ev: Event, e: ExecId)
    ensures e in Step(s, ev).record.tripped <==> e in s.record.tripped || (Meets(s, ev, e) && e in s.tokens)
    ensures Meets(s, ev, e) ==> e !in Step(s, ev).tokens
  {
    if OfTask(ev) {
      TaskUntripped(s, ev);
    } else {
      match ev
      case Receive => ReceiveTripped(s, e);
      case Handle =>
        if s.worker.Holding? {
          HandleTripped(s, e);
        }
      case Launch =>
      case _ => OtherTie(s, ev, e);
    }
  }

  /** Whether the worker met a cancel message of `e` holding its token at the `n`th event of a run. */
  predicate TrippedAt(es: seq<Event>, n: nat, e: ExecId)
    requires n < |es|
  {
    var s := Steps(INITIAL, es[..n]);
    Meets(s, es[n], e) && e in s.tokens
  }

  /** An execution is cancelled by its token exactly when, at some event of the run, the worker met a
      cancel message while the execution held its token. */
  lemma {:induction false} TrippedExactly(es: seq<Event>, e: ExecId)
    ensures e in Steps(INITIAL, es).record.tripped <==> exists n :: 0 <= n < |es| && TrippedAt(es, n, e)
    decreases |es|
  {
    if es != [] {
      var last := |es| - 1;
      var before := es[..last];
      TrippedExactly(before, e);
      TrippedStep(Steps(INITIAL, before), es[last], e);
      forall n | 0 <= n < last ensures TrippedAt(before, n, e) <==> TrippedAt(es, n, e) {
        assert before[..n] == es[..n];
      }
      assert TrippedAt(es, last, e) <==> Meets(Steps(INITIAL, before), es[last], e) && e in Steps(INITIAL, before).tokens;
    }
  }

  /** Once the worker has met a cancel message of an execution that held its token, the execution is
      cancelled, started, and without its token, for the rest of the run. */
  lemma CancelHolds(es: seq<Event>, ev: Event, more: seq<Event>, e: ExecId)
    requires Meets(Steps(INITIAL, es), ev, e) && e in Steps(INITIAL, es).tokens
    ensures var s := Steps(INITIAL, es + [ev] + more);
            e in s.record.tripped && e !in s.tokens && CountsOf(s.record.log, e).started == 1
  {
    var all := es + [ev] + more;
    assert all[..|es|] == es && all[|es|] == ev;
    assert TrippedAt(all, |es|, e);
    TrippedExactly(all, e);
    MarksExact(all, e);
  }

  // ---- waiting ----

  /** What is on its way, or was cleared, and was neither taken up nor cancelled, is queued. */
  predicate Waiting(s: State, e: ExecId) {
    var b := BookOf(s, e);
    b.tickets + b.dropped == 1 && !b.claiming && b.counts.inQueue == 0 ==> b.queued
  }

  lemma EntryWaits(s: State, job: JobId, exec: ExecId, e: ExecId)
    requires Ledger(s, e) && Waiting(s, e)
    ensures Waiting(Enter(s, job, exec), e)
  {
  }

  lemma SendWaits(s: State, exec: ExecId, e: ExecId)
    requires Waiting(s, e)
    ensures Waiting(Send(s, exec), e)
  {
    if exec in s.unsent {
      RunsAppend(s.channel, Run(s.unsent[exec], exec), e);
      assert Tickets(Send(s, exec), e) == Tickets(s, e);
      assert BookOf(Send(s, exec), e) == BookOf(s, e);
    }
  }

  lemma CancelWaits(s: State, exec: ExecId, e: ExecId)
    requires Waiting(s, e)
    ensures Waiting(HandleCancel(s, exec), e)
  {
    var s', b := HandleCancel(s, exec), BookOf(s, e);
    if exec in s.tokens {
      assert Tickets(s', e) == Tickets(s, e);
      assert BookOf(s', e) == if e == exec then b.(token := false) else b;
    } else if exec in s.queued {
      QueuedCancelBook(s, exec, e);
    }
  }

  lemma PassWaits(s: State, e: ExecId)
    requires Waiting(s, e) && s.channel != [] && (s.worker.Waiting? || (s.worker.Parked? && s.channel[0].Run?))
    ensures Waiting(ReceiveMessage(s), e)
  {
    var s' := ReceiveMessage(s);
    RunsHead(s.channel, e);
    RunsAppend(s.pending, s.channel[0], e);
    assert Tickets(s', e) == Tickets(s, e);
    assert BookOf(s', e) == BookOf(s, e);
  }

  lemma ReceiveWaits(s: State, e: ExecId)
    requires Waiting(s, e)
    ensures Waiting(ReceiveMessage(s), e)
  {
    if s.channel != [] && s.worker.Parked? && s.channel[0].Cancel? {
      var s' := s.(channel := s.channel[1..], worker := Top);
      RunsHead(s.channel, e);
      assert Tickets(s', e) == Tickets(s, e);
      assert BookOf(s', e) == BookOf(s, e);
      CancelWaits(s', s.channel[0].exec, e);
    } else if s.channel != [] && (s.worker.Parked? || s.worker.Waiting?) {
      PassWaits(s, e);
    }
  }

  lemma LookWaits(s: State, e: ExecId)
    requires Ledger(s, e) && Waiting(s, e) && s.worker.Top?
    ensures Waiting(LookAround(s), e)
  {
    if s.paused {
      WorkerKeeps(s, Parked, e);
    } else if s.pending == [] {
      WorkerKeeps(s, Queue.Worker.Waiting, e);
    } else {
      var s' := LookAround(s);
      assert Tickets(s', e) == Tickets(s, e);
      assert BookOf(s', e) == BookOf(s, e);
    }
  }

  lemma HandleWaits(s: State, e: ExecId)
    requires Ledger(s, e) && Waiting(s, e) && s.worker.Holding?
    ensures Waiting(HandleMessage(s, s.worker.message), e)
  {
    match s.worker.message
    case Run(job, exec) => ClaimBook(s, job, exec, e);
    case Cancel(exec) =>
      WorkerKeeps(s, Top, e);
      CancelWaits(s.(worker := Top), exec, e);
  }

  lemma LaunchWaits(s: State, job: JobId, exec: ExecId, e: ExecId)
    requires Ledger(s, e) && Waiting(s, e) && s.worker == Claiming(job, exec)
    ensures Waiting(LaunchRun(s, job, exec), e)
  {
    ClaimedTicket(s, job, exec);
    if e == exec {
      assert Balanced(BookOf(s, e));
    }
    if exec in s.cancelled {
      CancelledDropBook(s, job, exec, e);
    } else if job in s.running {
      SecondDropBook(s, job, exec, e);
    } else {
      StartBook(s, job, exec, e);
    }
  }

  lemma TaskWaits(s: State, ev: Event, e: ExecId)
    requires OfTask(ev) && Waiting(s, e)
    ensures Waiting(TaskStep(s, ev), e)
  {
    TaskFrame(s, ev);
    TaskNotices(s, ev);
    NotedCounts(s.record.log, Progress(ev.exec), e);
    NotedCounts(s.record.log, Completed(ev.exec, ByTask), e);
  }

  lemma ClearWaits(s: State, e: ExecId)
    requires Waiting(s, e)
    ensures Waiting(Clear(s), e)
  {
    RunsConcat(s.record.dropped, s.pending, e);
  }

  lemma SignalWaits(s: State, paused: bool, worker: Worker, e: ExecId)
    requires Waiting(s, e) && (worker == s.worker || (s.worker.Parked? && worker.Top?))
    ensures Waiting(s.(paused := paused, worker := worker), e)
  {
    var s' := s.(paused := paused, worker := worker);
    assert Tickets(s', e) == Tickets(s, e);
    assert BookOf(s', e) == BookOf(s, e);
  }

  lemma StepWaits(s: State, ev: Event, e: ExecId)
    requires Ledger(s, e) && Waiting(s, e)
    ensures Waiting(Step(s, ev), e)
  {
    match ev
    case EnqueueEntry(job, exec) => EntryWaits(s, job, exec, e);
    case EnqueueSend(exec) => SendWaits(s, exec, e);
    case ClientCancel(exec) => ClientCancelBook(s, exec, e);
    case Pause => SignalWaits(s, true, s.worker, e);
    case Resume => SignalWaits(s, false, s.worker, e);
    case ClearPending => ClearWaits(s, e);
    case Look =>
      if s.worker.Top? {
        LookWaits(s, e);
      }
    case Wake =>
      if s.worker.Parked? {
        SignalWaits(s, s.paused, Top, e);
      }
    case Receive => ReceiveWaits(s, e);
    case Handle =>
      if s.worker.Holding? {
        HandleWaits(s, e);
      }
    case Launch =>
      if s.worker.Claiming? {
        LaunchWaits(s, s.worker.job, s.worker.exec, e);
      }
    case _ => TaskWaits(s, ev, e);
  }

  lemma {:induction false} WaitingAlways(es: seq<Event>, e: ExecId)
    ensures Waiting(Steps(INITIAL, es), e)
    decreases |es|
  {
    if es != [] {
      WaitingAlways(es[..|es| - 1], e);
      InvAlways(es[..|es| - 1]);
      StepWaits(Steps(INITIAL, es[..|es| - 1]), es[|es| - 1], e);
    }
  }

  /** In every reachable state the queued executions are exactly those whose run message is on its way,
      or was cleared, and was neither taken up by the worker nor cancelled. */
  lemma QueuedExactly(es: seq<Event>, e: ExecId)
    ensures var s := Steps(INITIAL, es);
            e in s.queued
            <==> && Tickets(s, e) + Runs(s.record.dropped, e) == 1 && !(s.worker.Claiming? && s.worker.exec == e)
                 && CountsOf(s.record.log, e).inQueue == 0
  {
    InvAlways(es);
    WaitingAlways(es, e);
    assert Ledger(Steps(INITIAL, es), e);
    QueuedBalance(BookOf(Steps(INITIAL, es), e));
  }

  lemma QueuedBalance(b: Book)
    requires Balanced(b)
    ensures b.queued ==> b.tickets + b.dropped == 1 && !b.claiming && b.counts.inQueue == 0
  {
  }

  // ---- jobs ----

  predicate MessageAgrees(issued: map<ExecId, JobId>, m: Message) {
    m.Run? ==> m.exec in issued && issued[m.exec] == m.job
  }

  /** Wherever an execution and a job stand together, the job is the one the execution was enqueued for. */
  ghost predicate JobsAgree(s: State) {
    var issued := s.record.issued;
    && (forall e <- s.unsent :: e in issued && issued[e] == s.unsent[e])
    && (forall e <- s.queued :: e in issued && issued[e] == s.queued[e])
    && (forall e <- s.tasks :: e in issued && issued[e] == s.tasks[e].job)
    && (forall m <- s.channel :: MessageAgrees(issued, m))
    && (forall m <- s.pending :: MessageAgrees(issued, m))
    && (s.worker.Holding? ==> MessageAgrees(issued, s.worker.message))
    && (s.worker.Claiming? ==> s.worker.exec in issued && issued[s.worker.exec] == s.worker.job)
  }

  /** A job is queued at most once. */
  ghost predicate QueuedOnce(s: State) {
    forall d, e :: d in s.queued && e in s.queued && s.queued[d] == s.queued[e] ==> d == e
  }

  /** Treating a cancel message and launching leave messages alone and queue nothing. */
  lemma CancelQueues(s: State, exec: ExecId)
    ensures var s' := HandleCancel(s, exec);
            && s'.channel == s.channel && s'.pending == s.pending && s'.unsent == s.unsent && s'.tasks == s.tasks
            && s'.worker == s.worker && s'.record.issued == s.record.issued
            && (s'.queued == s.queued || s'.queued == s.queued - {exec})
  {
    if exec !in s.tokens && exec in s.queued {
      assert HandleCancel(s, exec).queued == s.queued - {exec};
    }
  }

  lemma CancelAgrees(s: State, exec: ExecId)
    requires JobsAgree(s)
    ensures JobsAgree(HandleCancel(s, exec))
  {
    CancelQueues(s, exec);
  }

  lemma EnterAgrees(s: State, job: JobId, exec: ExecId)
    requires JobsAgree(s)
    ensures JobsAgree(Enter(s, job, exec))
  {
    if exec !in s.record.issued && !AlreadyRunning(s, job) {
      var issued := s.record.issued[exec := job];
      assert forall m: Message :: MessageAgrees(s.record.issued, m) ==> MessageAgrees(issued, m);
    }
  }

  lemma SendAgrees(s: State, exec: ExecId)
    requires JobsAgree(s)
    ensures JobsAgree(Send(s, exec))
  {
  }

  lemma PassAgrees(s: State)
    requires JobsAgree(s) && s.channel != [] && (s.worker.Waiting? || (s.worker.Parked? && s.channel[0].Run?))
    ensures JobsAgree(ReceiveMessage(s))
  {
    assert s.channel[0] in s.channel && forall m <- s.channel[1..] :: m in s.channel;
  }

  lemma ReceiveAgrees(s: State)
    requires JobsAgree(s)
    ensures JobsAgree(ReceiveMessage(s))
  {
    if s.channel != [] && s.worker.Parked? && s.channel[0].Cancel? {
      assert forall m <- s.channel[1..] :: m in s.channel;
      CancelAgrees(s.(channel := s.channel[1..], worker := Top), s.channel[0].exec);
    } else if s.channel != [] && (s.worker.Parked? || s.worker.Waiting?) {
      PassAgrees(s);
    }
  }

  lemma HandleAgrees(s: State)
    requires JobsAgree(s) && s.worker.Holding?
    ensures JobsAgree(HandleMessage(s, s.worker.message))
  {
    if s.worker.message.Cancel? {
      CancelAgrees(s.(worker := Top), s.worker.message.exec);
    }
  }

  lemma LaunchParts(s: State, job: JobId, exec: ExecId)
    ensures var s' := LaunchRun(s, job, exec);
            && s'.channel == s.channel && s'.pending == s.pending && s'.unsent == s.unsent && s'.queued == s.queued
            && s'.worker == Top && s'.record.issued == s.record.issued
            && (s'.tasks == s.tasks || s'.tasks == s.tasks[exec := Task(job, Working)])
  {
    if exec in s.cancelled {
      assert LaunchRun(s, job, exec).worker == Top;
    } else if job !in s.running {
      assert LaunchRun(s, job, exec).tasks == s.tasks[exec := Task(job, Working)];
    }
  }

  lemma LaunchAgrees(s: State)
    requires JobsAgree(s) && s.worker.Claiming?
    ensures JobsAgree(LaunchRun(s, s.worker.job, s.worker.exec))
  {
    LaunchParts(s, s.worker.job, s.worker.exec);
  }

  lemma TaskJobs(s: State, ev: Event)
    requires OfTask(ev)
    ensures forall e <- TaskStep(s, ev).tasks :: e in s.tasks && TaskStep(s, ev).tasks[e].job == s.tasks[e].job
  {
  }

  lemma TaskAgrees(s: State, ev: Event)
    requires OfTask(ev) && JobsAgree(s)
    ensures JobsAgree(TaskStep(s, ev))
  {
    TaskFrame(s, ev);
    TaskJobs(s, ev);
  }

  lemma LookAgrees(s: State)
    requires JobsAgree(s)
    ensures JobsAgree(LookAround(s))
  {
    if !s.paused && s.pending != [] {
      assert s.pending[|s.pending| - 1] in s.pending;
      assert forall m <- s.pending[..|s.pending| - 1] :: m in s.pending;
    }
  }

  lemma RequestAgrees(s: State, exec: ExecId)
    requires JobsAgree(s)
    ensures JobsAgree(RequestCancel(s, exec))
  {
  }

  lemma ClearAgrees(s: State)
    requires JobsAgree(s)
    ensures JobsAgree(Clear(s))
  {
  }

  lemma SignalAgrees(s: State, paused: bool, worker: Worker)
    requires JobsAgree(s) && (worker == s.worker || worker.Top?)
    ensures JobsAgree(s.(paused := paused, worker := worker))
  {
  }

  lemma StepAgrees(s: State, ev: Event)
    requires JobsAgree(s)
    ensures JobsAgree(Step(s, ev))
  {
    if OfTask(ev) {
      TaskAgrees(s, ev);
    } else {
      match ev
      case ClientCancel(exec) => RequestAgrees(s, exec);
      case Pause => SignalAgrees(s, true, s.worker);
      case Resume => SignalAgrees(s, false, s.worker);
      case ClearPending => ClearAgrees(s);
      case Wake =>
        if s.worker.Parked? {
          SignalAgrees(s, s.paused, Top);
        }
      case EnqueueEntry(job, exec) => EnterAgrees(s, job, exec);
      case EnqueueSend(exec) => SendAgrees(s, exec);
      case Receive => ReceiveAgrees(s);
      case Look =>
        if s.worker.Top? {
          LookAgrees(s);
        }
      case Handle =>
        if s.worker.Holding? {
          HandleAgrees(s);
        }
      case Launch =>
        if s.worker.Claiming? {
          LaunchAgrees(s);
        }
    }
  }

  predicate QueuedWithin(s: State, s': State) {
    forall e <- s'.queued :: e in s.queued && s'.queued[e] == s.queued[e]
  }

  lemma ReceiveQueues(s: State)
    ensures QueuedWithin(s, ReceiveMessage(s))
  {
    if s.channel != [] && s.worker.Parked? && s.channel[0].Cancel? {
      CancelQueues(s.(channel := s.channel[1..], worker := Top), s.channel[0].exec);
    }
  }

  lemma HandleQueues(s: State, message: Message)
    ensures QueuedWithin(s, HandleMessage(s, message))
  {
    if message.Cancel? {
      CancelQueues(s.(worker := Top), message.exec);
    }
  }

  /** Only an accepted enqueue adds to the queue. */
  lemma QueuedStep(s: State, ev: Event)
    requires !ev.EnqueueEntry?
    ensures QueuedWithin(s, Step(s, ev))
  {
    if OfTask(ev) {
      TaskFrame(s, ev);
    } else {
      match ev
      case Receive => ReceiveQueues(s);
      case Handle =>
        if s.worker.Holding? {
          HandleQueues(s, s.worker.message);
        }
      case Launch =>
        if s.worker.Claiming? {
          LaunchParts(s, s.worker.job, s.worker.exec);
        }
      case _ =>
    }
  }

  lemma StepQueuesOnce(s: State, ev: Event)
    requires QueuedOnce(s)
    ensures QueuedOnce(Step(s, ev))
  {
    if !ev.EnqueueEntry? {
      QueuedStep(s, ev);
    }
  }

  lemma {:induction false} AgreesAlways(es: seq<Event>)
    ensures JobsAgree(Steps(INITIAL, es)) && QueuedOnce(Steps(INITIAL, es))
    decreases |es|
  {
    if es != [] {
      AgreesAlways(es[..|es| - 1]);
      StepAgrees(Steps(INITIAL, es[..|es| - 1]), es[|es| - 1]);
      StepQueuesOnce(Steps(INITIAL, es[..|es| - 1]), es[|es| - 1]);
    }
  }

  /** In every reachable state a job is queued at most once, and an execution is queued and runs for the
      job it was enqueued for. */
  lemma TasksRunTheirJobs(es: seq<Event>)
    ensures var s := Steps(INITIAL, es);
            && (forall d, e :: d in s.queued && e in s.queued && s.queued[d] == s.queued[e] ==> d == e)
            && (forall e <- s.queued :: e in s.record.issued && s.record.issued[e] == s.queued[e])
            && (forall e <- s.tasks :: e in s.record.issued && s.record.issued[e] == s.tasks[e].job)
  {
    AgreesAlways(es);
  }
}
