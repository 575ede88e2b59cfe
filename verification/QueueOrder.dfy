/** In which order the queue takes up what was sent to it. */
module QueueOrder {
  import opened Wrappers
  import opened Sequences
  import opened Queue

  /** The executions of run messages, in order. */
  function RunsIn(ms: seq<Message>): seq<ExecId> {
    if ms == [] then []
    else RunsIn(ms[..|ms| - 1]) + RunOf(ms[|ms| - 1])
  }

  function RunOf(m: Message): seq<ExecId> {
    if m.Run? then [m.exec] else []
  }

  /** The same, last message first. */
  function RunsReversed(ms: seq<Message>): seq<ExecId> {
    if ms == [] then []
    else RunOf(ms[|ms| - 1]) + RunsReversed(ms[..|ms| - 1])
  }

  function InHand(w: Worker): seq<ExecId> {
    match w
    case Holding(message) => RunOf(message)
    case Claiming(_, exec) => [exec]
    case _ => []
  }

  /** What the worker is to launch, in order: the run in its hand, then what was parked, the last first,
      then the channel. */
  function Due(s: State): seq<ExecId> {
    InHand(s.worker) + (RunsReversed(s.pending) + RunsIn(s.channel))
  }

  function SentNow(s: State, ev: Event): seq<ExecId> {
    if ev.EnqueueSend? && ev.exec in s.unsent then [ev.exec] else []
  }

  function MetNow(s: State, ev: Event): seq<ExecId> {
    if ev.Launch? && s.worker.Claiming? then [s.worker.exec] else []
  }

  /** The executions whose run message was sent, in order. */
  function SentBy(s: State, es: seq<Event>): seq<ExecId>
    decreases |es|
  {
    if es == [] then []
    else SentBy(s, es[..|es| - 1]) + SentNow(Steps(s, es[..|es| - 1]), es[|es| - 1])
  }

  /** The executions the worker launched or dropped, in order. */
  function MetBy(s: State, es: seq<Event>): seq<ExecId>
    decreases |es|
  {
    if es == [] then []
    else MetBy(s, es[..|es| - 1]) + MetNow(Steps(s, es[..|es| - 1]), es[|es| - 1])
  }

  /** The worker is not paused, and waits at the channel only when nothing is parked. */
  predicate Flowing(s: State) {
    !s.paused && !s.worker.Parked? && (s.worker.Waiting? ==> s.pending == [])
  }

  /** No pause, and no clearing of parked messages. */
  predicate Undisturbed(s: State, ev: Event) {
    !ev.Pause? && (ev.ClearPending? ==> s.pending == [])
  }

  predicate UndisturbedRun(s: State, es: seq<Event>)
    decreases |es|
  {
    es != [] ==> UndisturbedRun(s, es[..|es| - 1]) && Undisturbed(Steps(s, es[..|es| - 1]), es[|es| - 1])
  }

  // ---- one step ----

  lemma RunsLast(ms: seq<Message>, m: Message)
    ensures RunsIn(ms + [m]) == RunsIn(ms) + RunOf(m)
  {
    assert (ms + [m])[..|ms|] == ms;
  }

  lemma {:induction false} RunsFirst(ms: seq<Message>)
    requires ms != []
    ensures RunsIn(ms) == RunOf(ms[0]) + RunsIn(ms[1..])
    decreases |ms|
  {
    var n := |ms| - 1;
    if n > 0 {
      RunsFirst(ms[..n]);
      assert ms[1..][..n - 1] == ms[..n][1..] && ms[1..][n - 1] == ms[n];
      Assoc(RunOf(ms[0]), RunsIn(ms[..n][1..]), RunOf(ms[n]));
    } else {
      assert ms[..0] == [] && ms[1..] == [];
    }
  }

  lemma SendOrder(s: State, exec: ExecId)
    requires exec in s.unsent
    ensures Due(Send(s, exec)) == Due(s) + [exec]
  {
    var s' := Send(s, exec);
    RunsLast(s.channel, Run(s.unsent[exec], exec));
    Assoc(RunsReversed(s.pending), RunsIn(s.channel), [exec]);
    Assoc(InHand(s.worker), RunsReversed(s.pending) + RunsIn(s.channel), [exec]);
  }

  lemma RequestOrder(s: State, exec: ExecId)
    ensures Due(RequestCancel(s, exec)) == Due(s)
  {
    RunsLast(s.channel, Cancel(exec));
    assert RunsIn(s.channel) + [] == RunsIn(s.channel);
  }

  lemma LookOrder(s: State)
    requires s.worker.Top? && !s.paused
    ensures Due(LookAround(s)) == Due(s) && Flowing(LookAround(s))
  {
    if s.pending != [] {
      var n := |s.pending| - 1;
      Assoc(RunOf(s.pending[n]), RunsReversed(s.pending[..n]), RunsIn(s.channel));
      NilLeft(RunsReversed(s.pending) + RunsIn(s.channel));
    }
  }

  lemma ReceiveOrder(s: State)
    requires Flowing(s)
    ensures Due(ReceiveMessage(s)) == Due(s) && Flowing(ReceiveMessage(s))
  {
    if s.channel != [] && s.worker.Waiting? {
      RunsFirst(s.channel);
      NilLeft(RunsIn(s.channel));
      NilLeft(RunsIn(s.channel[1..]));
    }
  }

  lemma CancelOrder(s: State, exec: ExecId)
    ensures var s' := HandleCancel(s, exec);
            s'.worker == s.worker && s'.pending == s.pending && s'.channel == s.channel && s'.paused == s.paused
  {
  }

  lemma HandleOrder(s: State)
    requires Flowing(s) && s.worker.Holding?
    ensures Due(HandleMessage(s, s.worker.message)) == Due(s) && Flowing(HandleMessage(s, s.worker.message))
  {
    if s.worker.message.Cancel? {
      CancelOrder(s.(worker := Top), s.worker.message.exec);
    }
  }

  lemma LaunchFrame(s: State, job: JobId, exec: ExecId)
    ensures var s' := LaunchRun(s, job, exec);
            s'.worker == Top && s'.pending == s.pending && s'.channel == s.channel && s'.paused == s.paused
  {
  }

  lemma LaunchOrder(s: State)
    requires Flowing(s) && s.worker.Claiming?
    ensures var s' := LaunchRun(s, s.worker.job, s.worker.exec);
            [s.worker.exec] + Due(s') == Due(s) && Flowing(s')
  {
    LaunchFrame(s, s.worker.job, s.worker.exec);
    NilLeft(RunsReversed(s.pending) + RunsIn(s.channel));
  }

  lemma TaskOrder(s: State, ev: Event)
    requires OfTask(ev)
    ensures var s' := TaskStep(s, ev);
            s'.worker == s.worker && s'.pending == s.pending && s'.channel == s.channel && s'.paused == s.paused
  {
  }

  lemma SameOrder(s: State, ev: Event, t: State)
    requires Due(t) == Due(s) && SentNow(s, ev) == [] && MetNow(s, ev) == []
    ensures Due(s) + SentNow(s, ev) == MetNow(s, ev) + Due(t)
  {
    NilLeft(Due(s));
    assert Due(s) + [] == Due(s);
  }

  /** Steps that move no message. */
  lemma StillOrder(s: State, ev: Event)
    requires Flowing(s) && Undisturbed(s, ev)
    requires !ev.EnqueueSend? && !ev.ClientCancel? && !ev.Look? && !ev.Receive? && !ev.Handle? && !ev.Launch?
    ensures Due(Step(s, ev)) == Due(s) && Flowing(Step(s, ev))
  {
    if OfTask(ev) {
      TaskOrder(s, ev);
    }
  }

  lemma WorkerOrder(s: State, ev: Event)
    requires Flowing(s) && (ev.Look? || ev.Receive? || ev.Handle?)
    ensures Due(Step(s, ev)) == Due(s) && Flowing(Step(s, ev))
  {
    match ev
    case Look =>
      if s.worker.Top? {
        LookOrder(s);
      }
    case Receive => ReceiveOrder(s);
    case Handle =>
      if s.worker.Holding? {
        HandleOrder(s);
      }
  }

  lemma StepOrder(s: State, ev: Event)
    requires Flowing(s) && Undisturbed(s, ev)
    ensures Due(s) + SentNow(s, ev) == MetNow(s, ev) + Due(Step(s, ev))
    ensures Flowing(Step(s, ev))
  {
    if ev.EnqueueSend? && ev.exec in s.unsent {
      SendOrder(s, ev.exec);
      NilLeft(Due(Send(s, ev.exec)));
    } else if ev.Launch? && s.worker.Claiming? {
      LaunchOrder(s);
      assert Due(s) + [] == Due(s);
    } else {
      PassOrder(s, ev);
      SameOrder(s, ev, Step(s, ev));
    }
  }

  lemma PassOrder(s: State, ev: Event)
    requires Flowing(s) && Undisturbed(s, ev)
    requires ev.EnqueueSend? ==> ev.exec !in s.unsent
    requires ev.Launch? ==> !s.worker.Claiming?
    ensures Due(Step(s, ev)) == Due(s) && Flowing(Step(s, ev))
  {
    if ev.ClientCancel? {
      RequestOrder(s, ev.exec);
    } else if ev.Look? || ev.Receive? || ev.Handle? {
      WorkerOrder(s, ev);
    } else if !ev.EnqueueSend? && !ev.Launch? {
      StillOrder(s, ev);
    }
  }

  // ---- a run ----

  lemma {:induction false} OrderKept(s: State, es: seq<Event>)
    requires Flowing(s) && UndisturbedRun(s, es)
    ensures Due(s) + SentBy(s, es) == MetBy(s, es) + Due(Steps(s, es))
    ensures Flowing(Steps(s, es))
    decreases |es|
  {
    if es == [] {
      NilLeft(Due(s));
    } else {
      var n := |es| - 1;
      var t := Steps(s, es[..n]);
      OrderKept(s, es[..n]);
      StepOrder(t, es[n]);
      Assoc(Due(s), SentBy(s, es[..n]), SentNow(t, es[n]));
      Assoc(MetBy(s, es[..n]), Due(t), SentNow(t, es[n]));
      Assoc(MetBy(s, es[..n]), MetNow(t, es[n]), Due(Step(t, es[n])));
    }
  }

  /** A worker that waits at the channel has nothing parked, in every reachable state. */
  lemma {:induction false} WaitsWithNothingParked(es: seq<Event>)
    ensures var s := Steps(INITIAL, es); s.worker.Waiting? ==> s.pending == []
    decreases |es|
  {
    if es != [] {
      WaitsWithNothingParked(es[..|es| - 1]);
      WaitingStep(Steps(INITIAL, es[..|es| - 1]), es[|es| - 1]);
    }
  }

  lemma WaitingStep(s: State, ev: Event)
    requires s.worker.Waiting? ==> s.pending == []
    ensures Step(s, ev).worker.Waiting? ==> Step(s, ev).pending == []
  {
    if OfTask(ev) {
      TaskOrder(s, ev);
    }
  }

  /** From any reachable state in which the worker is neither paused nor parked, until the next pause:
      the worker takes up the run in its hand, then what was parked, the last first, then what is in the
      channel and what is sent to it, the first first; nothing is left out, repeated or overtaken. */
  lemma TakenUpInOrder(before: seq<Event>, more: seq<Event>)
    requires var s := Steps(INITIAL, before); !s.paused && !s.worker.Parked? && UndisturbedRun(s, more)
    ensures var s := Steps(INITIAL, before);
            Due(s) + SentBy(s, more) == MetBy(s, more) + Due(Steps(s, more))
  {
    WaitsWithNothingParked(before);
    OrderKept(Steps(INITIAL, before), more);
  }

  // ---- while paused ----

  /** The queue is paused and the worker has nothing in its hand. */
  predicate Resting(s: State) {
    s.paused && (s.worker.Top? || s.worker.Parked?)
  }

  predicate StaysPaused(es: seq<Event>) {
    forall i :: 0 <= i < |es| ==> !es[i].Resume? && !es[i].ClearPending?
  }

  /** What was parked and what is to be, in order. */
  function Arriving(s: State): seq<ExecId> {
    RunsIn(s.pending) + RunsIn(s.channel)
  }

  lemma ParkOrder(s: State)
    requires Resting(s)
    ensures Arriving(ReceiveMessage(s)) == Arriving(s) && Resting(ReceiveMessage(s))
  {
    if s.channel != [] && s.worker.Parked? {
      RunsFirst(s.channel);
      if s.channel[0].Run? {
        RunsLast(s.pending, s.channel[0]);
        Assoc(RunsIn(s.pending), RunOf(s.channel[0]), RunsIn(s.channel[1..]));
      } else {
        CancelOrder(s.(channel := s.channel[1..], worker := Top), s.channel[0].exec);
        NilLeft(RunsIn(s.channel[1..]));
      }
    }
  }

  lemma RestOrder(s: State, ev: Event)
    requires Resting(s) && !ev.Resume? && !ev.ClearPending?
    ensures Arriving(Step(s, ev)) == Arriving(s) + SentNow(s, ev) && Resting(Step(s, ev))
  {
    assert Arriving(s) + [] == Arriving(s);
    if OfTask(ev) {
      TaskOrder(s, ev);
    } else if ev.EnqueueSend? {
      if ev.exec in s.unsent {
        RunsLast(s.channel, Run(s.unsent[ev.exec], ev.exec));
        Assoc(RunsIn(s.pending), RunsIn(s.channel), [ev.exec]);
      }
    } else if ev.ClientCancel? {
      RunsLast(s.channel, Cancel(ev.exec));
      assert RunsIn(s.channel) + [] == RunsIn(s.channel);
    } else if ev.Receive? {
      ParkOrder(s);
    } else {
      RestStill(s, ev);
    }
  }

  /** Steps that move no message while paused. */
  lemma RestStill(s: State, ev: Event)
    requires Resting(s) && !OfTask(ev) && !ev.Resume? && !ev.ClearPending?
    requires !ev.EnqueueSend? && !ev.ClientCancel? && !ev.Receive?
    ensures Arriving(Step(s, ev)) == Arriving(s) && Resting(Step(s, ev))
  {
  }

  /** While the queue is paused, run messages are parked in the order in which they were sent, and none
      is lost. */
  lemma {:induction false} ParkedInOrder(s: State, es: seq<Event>)
    requires Resting(s) && StaysPaused(es)
    ensures Arriving(s) + SentBy(s, es) == Arriving(Steps(s, es)) && Resting(Steps(s, es))
    decreases |es|
  {
    if es == [] {
      assert Arriving(s) + [] == Arriving(s);
    } else {
      var n := |es| - 1;
      ParkedInOrder(s, es[..n]);
      RestOrder(Steps(s, es[..n]), es[n]);
      Assoc(Arriving(s), SentBy(s, es[..n]), SentNow(Steps(s, es[..n]), es[n]));
    }
  }

  // ---- first in, first out ----

  predicate NeverPaused(es: seq<Event>) {
    forall i :: 0 <= i < |es| ==> !es[i].Pause?
  }

  lemma NothingParked(s: State, ev: Event)
    requires Flowing(s) && s.pending == [] && !ev.Pause?
    ensures Step(s, ev).pending == []
  {
    if OfTask(ev) {
      TaskOrder(s, ev);
    } else if ev.Handle? && s.worker.Holding? && s.worker.message.Cancel? {
      CancelOrder(s.(worker := Top), s.worker.message.exec);
    }
  }

  lemma {:induction false} NeverDisturbed(es: seq<Event>)
    requires NeverPaused(es)
    ensures UndisturbedRun(INITIAL, es) && Flowing(Steps(INITIAL, es)) && Steps(INITIAL, es).pending == []
    decreases |es|
  {
    if es != [] {
      var n := |es| - 1;
      NeverDisturbed(es[..n]);
      StepOrder(Steps(INITIAL, es[..n]), es[n]);
      NothingParked(Steps(INITIAL, es[..n]), es[n]);
    }
  }

  /** Some members of `ys`, in their order. */
  predicate Within(xs: seq<ExecId>, ys: seq<ExecId>)
    decreases |ys|
  {
    xs == []
    || (ys != []
        && (Within(xs, ys[..|ys| - 1])
            || (xs[|xs| - 1] == ys[|ys| - 1] && Within(xs[..|xs| - 1], ys[..|ys| - 1]))))
  }

  lemma {:induction false} WithinMore(xs: seq<ExecId>, ys: seq<ExecId>, more: seq<ExecId>)
    requires Within(xs, ys)
    ensures Within(xs, ys + more)
    decreases |more|
  {
    if more == [] {
      assert ys + more == ys;
    } else {
      var n := |more| - 1;
      WithinMore(xs, ys, more[..n]);
      assert (ys + more)[..|ys + more| - 1] == ys + more[..n];
    }
  }

  lemma WithinBoth(xs: seq<ExecId>, ys: seq<ExecId>, x: ExecId)
    requires Within(xs, ys)
    ensures Within(xs + [x], ys + [x])
  {
    assert (xs + [x])[..|xs|] == xs && (ys + [x])[..|ys|] == ys;
  }

  /** The executions started, in order. */
  function StartsOf(log: seq<Notice>): seq<ExecId> {
    if log == [] then []
    else StartsOf(log[..|log| - 1]) + (if log[|log| - 1].Started? then [log[|log| - 1].exec] else [])
  }

  lemma StartsNoted(log: seq<Notice>, n: Notice)
    ensures StartsOf(log + [n]) == StartsOf(log) + if n.Started? then [n.exec] else []
  {
    assert (log + [n])[..|log|] == log;
  }

  lemma SameStarts(log: seq<Notice>, n: Notice)
    requires !n.Started?
    ensures StartsOf(log + [n]) == StartsOf(log)
  {
    StartsNoted(log, n);
    assert StartsOf(log) + [] == StartsOf(log);
  }

  lemma CancelStarts(s: State, exec: ExecId)
    ensures StartsOf(HandleCancel(s, exec).record.log) == StartsOf(s.record.log)
  {
    SameStarts(s.record.log, Completed(exec, InQueue));
  }

  lemma TaskStarts(s: State, ev: Event)
    requires OfTask(ev)
    ensures StartsOf(TaskStep(s, ev).record.log) == StartsOf(s.record.log)
  {
    SameStarts(s.record.log, Progress(ev.exec));
    SameStarts(s.record.log, Completed(ev.exec, ByTask));
  }

  lemma ReceiveStarts(s: State)
    ensures StartsOf(ReceiveMessage(s).record.log) == StartsOf(s.record.log)
  {
    if s.channel != [] && s.channel[0].Cancel? {
      CancelStarts(s.(channel := s.channel[1..], worker := Top), s.channel[0].exec);
    }
  }

  lemma HandleStarts(s: State)
    requires s.worker.Holding?
    ensures StartsOf(HandleMessage(s, s.worker.message).record.log) == StartsOf(s.record.log)
  {
    if s.worker.message.Cancel? {
      CancelStarts(s.(worker := Top), s.worker.message.exec);
    }
  }

  lemma LaunchStarts(s: State, job: JobId, exec: ExecId)
    ensures var before, after := StartsOf(s.record.log), StartsOf(LaunchRun(s, job, exec).record.log);
            after == before || after == before + [exec]
  {
    SameStarts(s.record.log, Completed(exec, AtClaim));
    StartsNoted(s.record.log, Started(exec));
  }

  lemma OtherStarts(s: State, ev: Event)
    requires !OfTask(ev) && !ev.Receive? && !ev.Handle? && !ev.Launch?
    ensures Step(s, ev).record.log == s.record.log
  {
  }

  /** A step starts at most the execution it takes up. */
  lemma StepStarts(s: State, ev: Event)
    ensures var before, after := StartsOf(s.record.log), StartsOf(Step(s, ev).record.log);
            after == before || after == before + MetNow(s, ev)
  {
    if OfTask(ev) {
      TaskStarts(s, ev);
    } else if ev.Receive? {
      ReceiveStarts(s);
    } else if ev.Handle? {
      if s.worker.Holding? {
        HandleStarts(s);
      }
    } else if ev.Launch? {
      if s.worker.Claiming? {
        LaunchStarts(s, s.worker.job, s.worker.exec);
      }
    } else {
      OtherStarts(s, ev);
    }
  }

  lemma {:induction false} StartsWithinMet(es: seq<Event>)
    ensures Within(StartsOf(Steps(INITIAL, es).record.log), MetBy(INITIAL, es))
    decreases |es|
  {
    if es != [] {
      var n := |es| - 1;
      var t := Steps(INITIAL, es[..n]);
      StartsWithinMet(es[..n]);
      StepStarts(t, es[n]);
      WithinMore(StartsOf(t.record.log), MetBy(INITIAL, es[..n]), MetNow(t, es[n]));
      if MetNow(t, es[n]) != [] {
        WithinBoth(StartsOf(t.record.log), MetBy(INITIAL, es[..n]), t.worker.exec);
      }
    }
  }

  /** While the queue is never paused, executions start in the order in which their run messages were sent. */
  lemma FirstInFirstOut(es: seq<Event>)
    requires NeverPaused(es)
    ensures Within(StartsOf(Steps(INITIAL, es).record.log), SentBy(INITIAL, es))
  {
    NeverDisturbed(es);
    OrderKept(INITIAL, es);
    assert Due(INITIAL) == [];
    NilLeft(SentBy(INITIAL, es));
    StartsWithinMet(es);
    WithinMore(StartsOf(Steps(INITIAL, es).record.log), MetBy(INITIAL, es), Due(Steps(INITIAL, es)));
  }
}
